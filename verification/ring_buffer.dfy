/**
 * The single-producer/single-consumer ring buffer of tick records: a fixed
 * array of 1024 slots and two cursors. One slot is always kept empty, so the
 * cursors alone tell "full" ((push + 1) mod N == pop) from "empty"
 * (push == pop) and at most N - 1 records are resident.
 *
 * Each `Push` and `Pop` is one sequential step; the atomic loads and stores
 * of the cursors are plain field reads and writes here.
 */
module RingBuffers {
  import opened MarketDataRecord

  /** `RING_BUFFER_CAPACITY`. */
  const N: nat := 1024

  /** Records held when the write cursor is at `push` and the read cursor at
      `pop`: the distance from `pop` forward to `push` around the ring. */
  function Occupancy(push: nat, pop: nat): (n: nat)
    requires push < N && pop < N
    ensures n < N
    ensures n == 0 <==> push == pop
    ensures n == N - 1 <==> (push + 1) % N == pop
    ensures (pop + n) % N == push
  {
    if pop <= push then push - pop else push + N - pop
  }

  /** A successful push (the slot after `push` is not `pop`) adds one record. */
  lemma OccupancyAfterPush(push: nat, pop: nat)
    requires push < N && pop < N && (push + 1) % N != pop
    ensures Occupancy((push + 1) % N, pop) == Occupancy(push, pop) + 1
  {
    if push + 1 == N {
      assert (push + 1) % N == 0;
    } else {
      assert (push + 1) % N == push + 1;
    }
  }

  /** A successful pop (the cursors differ) removes one record. */
  lemma OccupancyAfterPop(push: nat, pop: nat)
    requires push < N && pop < N && push != pop
    ensures Occupancy(push, (pop + 1) % N) == Occupancy(push, pop) - 1
  {
    if pop + 1 == N {
      assert (pop + 1) % N == 0;
    } else {
      assert (pop + 1) % N == pop + 1;
    }
  }

  /** Fewer than N steps from one cursor reach distinct slots. */
  lemma DistinctSlots(c: nat, i: nat, j: nat)
    requires c < N && i < j < N
    ensures (c + i) % N != (c + j) % N
  {
    if c + j < N {
      assert (c + j) % N == c + j;
      assert (c + i) % N == c + i;
    } else if c + i < N {
      assert (c + j) % N == c + j - N;
      assert (c + i) % N == c + i;
    } else {
      assert (c + j) % N == c + j - N;
      assert (c + i) % N == c + i - N;
    }
  }

  /** Slot `i` after the cursor that follows `c` is slot `i + 1` after `c`. */
  lemma AdvanceSlot(c: nat, i: nat)
    requires c < N
    ensures ((c + 1) % N + i) % N == (c + i + 1) % N
  {
    if c + 1 == N {
      assert (c + 1) % N == 0;
      assert c + i + 1 == i + N;
    } else {
      assert (c + 1) % N == c + 1;
    }
  }

  /** The slots `slots` hold the queue `contents` from slot `pop` on,
      wrapping around the end of the array. */
  ghost predicate Holds(contents: seq<MarketData>, slots: seq<MarketData>, pop: nat)
  {
    |slots| == N && forall i :: 0 <= i < |contents| ==> contents[i] == slots[(pop + i) % N]
  }

  /** Writing the slot after the last resident record and appending the
      record to the queue keeps the slots holding the queue. */
  lemma HoldsAfterPush(contents: seq<MarketData>, slots: seq<MarketData>, pop: nat, push: nat, d: MarketData)
    requires Holds(contents, slots, pop) && pop < N && push < N
    requires |contents| < N - 1 && (pop + |contents|) % N == push
    ensures Holds(contents + [d], slots[push := d], pop)
  {
    var c := contents + [d];
    forall i | 0 <= i < |c|
      ensures c[i] == slots[push := d][(pop + i) % N]
    {
      if i < |contents| {
        DistinctSlots(pop, i, |contents|);
      }
    }
  }

  /** Advancing the read cursor past the oldest record and dropping it from
      the queue keeps the slots holding the queue. */
  lemma HoldsAfterPop(contents: seq<MarketData>, slots: seq<MarketData>, pop: nat)
    requires Holds(contents, slots, pop) && pop < N && contents != []
    ensures contents[0] == slots[pop]
    ensures Holds(contents[1..], slots, (pop + 1) % N)
  {
    assert contents[0] == slots[(pop + 0) % N];
    forall i | 0 <= i < |contents| - 1
      ensures contents[1..][i] == slots[((pop + 1) % N + i) % N]
    {
      assert contents[1..][i] == contents[i + 1];
      AdvanceSlot(pop, i);
    }
  }

  class RingBuffer {
    /** The slot array; the source's `buffer` member, never replaced. */
    const buffer: array<MarketData>
    var pushPtr: nat
    var popPtr: nat

    /** The records resident in the buffer, oldest first. */
    ghost var Contents: seq<MarketData>

    ghost predicate Valid()
      reads this, buffer
    {
      && buffer.Length == N
      && pushPtr < N && popPtr < N
      && |Contents| == Occupancy(pushPtr, popPtr)
      && Holds(Contents, buffer[..], popPtr)
    }

    /** Placement construction in a fresh segment: both cursors at 0, every
        slot a default-constructed record, nothing resident. */
    constructor ()
      ensures Valid() && fresh(buffer)
      ensures pushPtr == 0 && popPtr == 0 && Contents == []
      ensures forall i :: 0 <= i < N ==> buffer[i] == MarketData(Padded([]), 0.0, 0.0, 0)
    {
      buffer := new MarketData[N](_ => MarketData(Padded([]), 0.0, 0.0, 0));
      pushPtr, popPtr := 0, 0;
      Contents := [];
    }

    /** Producer step. Fails, changing nothing, exactly when the slot after
        `pushPtr` is `popPtr`; otherwise stores `data` in slot `pushPtr` and
        advances `pushPtr`, so `data` joins the back of the queue. */
    method Push(data: MarketData) returns (ok: bool)
      requires Valid()
      modifies this, buffer
      ensures Valid()
      ensures ok <==> (old(pushPtr) + 1) % N != old(popPtr)
      ensures ok <==> |old(Contents)| < N - 1
      ensures popPtr == old(popPtr)
      ensures ok ==> pushPtr == (old(pushPtr) + 1) % N
      ensures ok ==> buffer[..] == old(buffer[..])[old(pushPtr) := data]
      ensures !ok ==> pushPtr == old(pushPtr) && buffer[..] == old(buffer[..])
      ensures Contents == if ok then old(Contents) + [data] else old(Contents)
    {
      var push := pushPtr;
      var pop := popPtr;
      var next := (push + 1) % N;
      if next == pop {
        return false;
      }
      buffer[push] := data;
      pushPtr := next;
      Contents := Contents + [data];
      ok := true;
      OccupancyAfterPush(push, pop);
      HoldsAfterPush(old(Contents), old(buffer[..]), pop, push, data);
    }

    /** Consumer step. Fails, leaving `data` as it was, exactly when the
        cursors are equal; otherwise yields slot `popPtr`, the oldest
        resident record, and advances `popPtr`. */
    method Pop(data: MarketData) returns (ok: bool, out: MarketData)
      requires Valid()
      modifies this
      ensures Valid()
      ensures ok <==> old(popPtr) != old(pushPtr)
      ensures ok <==> old(Contents) != []
      ensures pushPtr == old(pushPtr) && buffer[..] == old(buffer[..])
      ensures !ok ==> out == data && popPtr == old(popPtr) && Contents == old(Contents)
      ensures ok ==> out == old(buffer[popPtr]) && popPtr == (old(popPtr) + 1) % N
      ensures ok ==> out == old(Contents)[0] && Contents == old(Contents)[1..]
    {
      var pop := popPtr;
      var push := pushPtr;
      if pop == push {
        return false, data;
      }
      out := buffer[pop];
      var next := (pop + 1) % N;
      popPtr := next;
      Contents := Contents[1..];
      ok := true;
      OccupancyAfterPop(push, pop);
      HoldsAfterPop(old(Contents), buffer[..], pop);
    }

    /** `empty()`: the cursors are equal, i.e. no record is resident. */
    function Empty(): (b: bool)
      requires Valid()
      reads this, buffer
      ensures b <==> Size() == 0
      ensures b <==> Contents == []
    {
      popPtr == pushPtr
    }

    /** `full()`: the slot after the write cursor is the read cursor, i.e.
        N - 1 records are resident and the next `Push` fails. */
    function Full(): (b: bool)
      requires Valid()
      reads this, buffer
      ensures b <==> Size() == N - 1
      ensures b <==> |Contents| == N - 1
    {
      (pushPtr + 1) % N == popPtr
    }

    /** `size()`: the number of resident records, between 0 and N - 1. */
    function Size(): (n: nat)
      requires Valid()
      reads this, buffer
      ensures n <= N - 1
      ensures n == |Contents|
    {
      (pushPtr + N - popPtr) % N
    }
  }

  /** One step a producer or the consumer can take. */
  datatype Op = PushOp(data: MarketData) | PopOp

  /** What a run of steps did: records accepted by `Push`, records delivered
      by `Pop`, and the records still resident, each in order. */
  datatype Run = Run(accepted: seq<MarketData>, delivered: seq<MarketData>, resident: seq<MarketData>)

  /** Reference behaviour of the buffer: a FIFO queue with room for N - 1
      records that drops a record pushed while it is full (drop-newest). */
  function QueueRun(ops: seq<Op>): Run
  {
    if ops == [] then Run([], [], [])
    else
      var prev := QueueRun(ops[..|ops| - 1]);
      match ops[|ops| - 1]
      case PushOp(d) =>
        if |prev.resident| < N - 1 then Run(prev.accepted + [d], prev.delivered, prev.resident + [d])
        else prev
      case PopOp =>
        if prev.resident == [] then prev
        else Run(prev.accepted, prev.delivered + [prev.resident[0]], prev.resident[1..])
  }

  /** No loss, reordering or duplication: what was delivered followed by what
      is still resident is exactly what was accepted, and at most N - 1
      accepted records are ever undelivered. */
  lemma {:induction false} QueueRunConserves(ops: seq<Op>)
    ensures QueueRun(ops).delivered + QueueRun(ops).resident == QueueRun(ops).accepted
    ensures |QueueRun(ops).resident| <= N - 1
  {
    if ops != [] {
      var prev := QueueRun(ops[..|ops| - 1]);
      QueueRunConserves(ops[..|ops| - 1]);
      match ops[|ops| - 1]
      case PushOp(d) =>
        assert prev.delivered + (prev.resident + [d]) == (prev.delivered + prev.resident) + [d];
      case PopOp =>
        if prev.resident != [] {
          assert (prev.delivered + [prev.resident[0]]) + prev.resident[1..] == prev.delivered + prev.resident;
        }
    }
  }

  /** Runs `ops` against a freshly constructed buffer. The records the
      consumer receives are those of the reference queue, hence a prefix of
      the accepted records that is at most N - 1 records short. */
  method Replay(ops: seq<Op>) returns (accepted: seq<MarketData>, delivered: seq<MarketData>)
    ensures accepted == QueueRun(ops).accepted && delivered == QueueRun(ops).delivered
    ensures delivered <= accepted && |accepted| - |delivered| <= N - 1
  {
    var rb := new RingBuffer();
    accepted, delivered := [], [];
    var scratch := MarketData(Padded([]), 0.0, 0.0, 0);
    var i := 0;
    while i < |ops|
      invariant 0 <= i <= |ops|
      invariant rb.Valid() && fresh(rb.buffer)
      invariant QueueRun(ops[..i]) == Run(accepted, delivered, rb.Contents)
    {
      assert ops[..i + 1][..i] == ops[..i];
      match ops[i] {
        case PushOp(d) =>
          var ok := rb.Push(d);
          if ok {
            accepted := accepted + [d];
          }
        case PopOp =>
          var ok, out := rb.Pop(scratch);
          if ok {
            delivered := delivered + [out];
            scratch := out;
          }
      }
      i := i + 1;
    }
    assert ops[..i] == ops;
    QueueRunConserves(ops);
  }

  /** From an empty buffer, exactly N - 1 = 1023 pushes succeed and the next
      one fails; after one pop, a push succeeds again. */
  method FillThenDrainOne(d: MarketData) returns (accepted: nat, nextAccepted: bool, afterPopAccepted: bool)
    ensures accepted == N - 1
    ensures !nextAccepted
    ensures afterPopAccepted
  {
    var rb := new RingBuffer();
    accepted := 0;
    var ok := true;
    while ok
      invariant rb.Valid() && fresh(rb.buffer)
      invariant |rb.Contents| == accepted <= N - 1
      invariant !ok ==> accepted == N - 1
      decreases N - accepted, ok
    {
      ok := rb.Push(d);
      if ok {
        accepted := accepted + 1;
      }
    }
    nextAccepted := rb.Push(d);
    var popped, _ := rb.Pop(d);
    afterPopAccepted := rb.Push(d);
  }
}
