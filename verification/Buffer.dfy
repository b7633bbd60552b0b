/** src/Buffer.cpp: a vector of bytes with a moving head and lazy compaction.

    `Queue` is the value of a buffer and its operations; class `Buffer` performs the same
    operations in place.  `moved` and `consumed` count the bytes ever shifted by `_compact` and
    ever consumed; they exist to state the cost of laziness. */
module Buffers {
  const LIMIT_REQUEST_BODY: nat := 20971520
  const MAX_INITIAL: nat := 64 * 1024

  function InitialCapacity(limit: nat): nat
  {
    if MAX_INITIAL > limit && limit > 0 then limit else MAX_INITIAL
  }

  datatype Queue = Queue(storage: string, head: nat, limit: nat, moved: nat, consumed: nat) {
    ghost predicate Settled()
    {
      && (head == 0 || 2 * head + 2 <= |storage|)
      && moved + 2 * head <= 2 * consumed
    }

    /** What every buffer that was not erased satisfies between operations. */
    ghost predicate Sound() { head <= |storage| && Settled() }

    function Live(): string
    {
      if head <= |storage| then storage[head..] else ""
    }

    function Compact(): Queue
      requires head <= |storage|
    {
      if head == 0 then this
      else this.(storage := Live(), head := 0, moved := moved + |Live()|)
    }

    function CompactIfHalfUsed(): Queue
      requires head <= |storage|
    {
      if head > 0 && head >= |storage| / 2 then Compact() else this
    }

    predicate Fits(len: nat, bound: nat)
      requires head <= |storage|
    {
      len == 0 || |storage| - head + len <= bound
    }

    function Put(src: string, bound: nat): Queue
      requires head <= |storage|
    {
      if src == "" || !Fits(|src|, bound) then this
      else
        var q := CompactIfHalfUsed();
        q.(storage := q.storage + src)
    }

    function Take(n: nat): Queue
      requires head <= |storage|
    {
      var k := if n > |storage| - head then |storage| - head else n;
      var q := this.(head := head + k, consumed := consumed + k).CompactIfHalfUsed();
      if q.head == |q.storage| then q.Rewind() else q
    }

    function Rewind(): Queue { this.(storage := "", head := 0) }

    function Erase(): Queue { this.(storage := "") }

    function Limited(max: nat): Queue { this.(limit := max) }
  }

  datatype Op =
    | Append(src: string)
    | AppendResult(src: string)
    | Consume(n: nat)
    | Reset
    | SetMaxSize(max: nat)

  function Apply(q: Queue, op: Op): Queue
    requires q.head <= |q.storage|
  {
    match op
    case Append(src) => q.Put(src, q.limit)
    case AppendResult(src) => q.Put(src, LIMIT_REQUEST_BODY)
    case Consume(n) => q.Take(n)
    case Reset => q.Rewind()
    case SetMaxSize(max) => q.Limited(max)
  }

  function ApplyAll(q: Queue, ops: seq<Op>): (r: Queue)
    requires q.head <= |q.storage|
    ensures r.head <= |r.storage|
    decreases |ops|
  {
    if ops == [] then q else ApplyAll(Apply(q, ops[0]), ops[1..])
  }

  // -------------------------------------------------------- erased buffers

  /** The capacity after `n` turns of the loop of `_ensureCapacity`, which stops once it suffices. */
  function Doubled(capacity: nat, needed: nat, limit: nat, n: nat): nat
    decreases n
  {
    if n == 0 || capacity >= needed then capacity
    else if capacity * 2 > limit then limit
    else Doubled(capacity * 2, needed, limit, n - 1)
  }

  /** From any capacity at all some number of turns is enough, for what may be appended; from none, no
      number is: an erased buffer must not be appended to. */
  lemma {:induction false} ErasedNeverGrows(needed: nat, limit: nat, n: nat)
    requires 0 < needed <= limit
    ensures Doubled(0, needed, limit, n) == 0
    ensures forall capacity: nat :: capacity > 0 ==> Doubled(capacity, needed, limit, needed) >= needed
  {
    if n > 0 { ErasedNeverGrows(needed, limit, n - 1); }
    forall capacity: nat | capacity > 0 ensures Doubled(capacity, needed, limit, needed) >= needed {
      DoublingSuffices(capacity, needed, limit, needed);
    }
  }

  lemma {:induction false} DoublingSuffices(capacity: nat, needed: nat, limit: nat, n: nat)
    requires capacity > 0 && needed <= limit && capacity + n >= needed
    ensures Doubled(capacity, needed, limit, n) >= needed
    decreases n
  {
    if n > 0 && capacity < needed && capacity * 2 <= limit { DoublingSuffices(capacity * 2, needed, limit, n - 1); }
  }

  /** How `append` ends when storage, head and capacity are these: done, with the exception, in the loop of
      `_ensureCapacity` for ever, or moving memory that is not the buffer's. */
  datatype Ending = Done | Thrown | Endless | Overrun

  const WIDTH: nat := 0x1_0000_0000_0000_0000

  /** `append` in the arithmetic of `size_t`. */
  function Appending(size: nat, head: nat, capacity: nat, len: nat, limit: nat): Ending
  {
    if len == 0 then Done
    else if (size - head + len) % WIDTH > limit then Thrown
    else if head > 0 && head >= size / 2 && head > size then Overrun
    else if capacity == 0 then Endless
    else Done
  }

  /** A buffer in order appends what fits.  One that was erased appends nothing: with its head at the start it
      does not return, or throws if what arrives is over the limit by itself; else the size it reports has
      wrapped around, and it throws when less arrives than the head or too much behind it, and otherwise
      moves 2^64 bytes less the head. */
  lemma AppendingIs(size: nat, head: nat, capacity: nat, len: nat, limit: nat)
    requires head < WIDTH / 2 && len < WIDTH / 2 && size < WIDTH / 2 && limit <= WIDTH / 2 && len > 0
    ensures head <= size && capacity > 0 ==> Appending(size, head, capacity, len, limit) == if size - head + len <= limit then Done else Thrown
    ensures Appending(0, head, 0, len, limit) ==
            if len < head || len - head > limit then Thrown else if head == 0 then Endless else Overrun
  {
    if len < head { assert (0 - head + len) % WIDTH == WIDTH - (head - len); }
  }

  // ------------------------------------------------ appends seen from outside

  /** `append` does not throw. */
  predicate Room(out: string, s: string, limit: nat) { s == "" || |out| + |s| <= limit }

  /** The contents after some appends in a row, and whether one of them threw: what fitted stays. */
  datatype Appended = Appended(out: string, thrown: bool)

  function AppendAll(out: string, pieces: seq<string>, limit: nat): (r: Appended)
    ensures |out| <= limit ==> |r.out| <= limit
    decreases |pieces|
  {
    if pieces == [] then Appended(out, false)
    else if !Room(out, pieces[0], limit) then Appended(out, true)
    else AppendAll(out + pieces[0], pieces[1..], limit)
  }

  /** The abstract byte queue: bytes and a bound, no storage. */
  datatype Fifo = Fifo(bytes: string, limit: nat)

  function FifoPut(f: Fifo, src: string, bound: nat): Fifo
  {
    if |f.bytes| + |src| <= bound then f.(bytes := f.bytes + src) else f
  }

  function FifoApply(f: Fifo, op: Op): Fifo
  {
    match op
    case Append(src) => FifoPut(f, src, f.limit)
    case AppendResult(src) => FifoPut(f, src, LIMIT_REQUEST_BODY)
    case Consume(n) => f.(bytes := if n <= |f.bytes| then f.bytes[n..] else "")
    case Reset => f.(bytes := "")
    case SetMaxSize(max) => f.(limit := max)
  }

  function FifoApplyAll(f: Fifo, ops: seq<Op>): Fifo
    decreases |ops|
  {
    if ops == [] then f else FifoApplyAll(FifoApply(f, ops[0]), ops[1..])
  }

  lemma StepRefines(q: Queue, op: Op)
    requires q.Sound()
    ensures var r := Apply(q, op);
            r.Sound()
            && Fifo(r.Live(), r.limit) == FifoApply(Fifo(q.Live(), q.limit), op)
  {
    match op
    case Append(src) => PutLive(q, src, q.limit);
    case AppendResult(src) => PutLive(q, src, LIMIT_REQUEST_BODY);
    case Consume(n) => TakeLive(q, n);
    case Reset =>
    case SetMaxSize(max) =>
  }

  /** Appending keeps what is queued in front; it never has to compact a settled buffer. */
  lemma PutLive(q: Queue, src: string, bound: nat)
    requires q.Sound()
    ensures var r := q.Put(src, bound);
            r.Sound() && r.moved == q.moved
            && r.Live() == (if q.Fits(|src|, bound) then q.Live() + src else q.Live())
  {
    if src == "" {
      assert q.Live() + src == q.Live();
    } else if q.Fits(|src|, bound) {
      assert (q.storage + src)[q.head..] == q.storage[q.head..] + src;
    }
  }

  lemma TakeLive(q: Queue, n: nat)
    requires q.Sound()
    ensures var r := q.Take(n);
            r.Sound()
            && r.Live() == (if n <= |q.Live()| then q.Live()[n..] else "")
  {
    var k := if n > |q.storage| - q.head then |q.storage| - q.head else n;
    assert q.Live()[k..] == q.storage[q.head + k..];
  }

  /** Over any run of operations the buffer is a byte queue; what it stores is at most twice what
      is live, and all compaction together moves at most two bytes per byte consumed. */
  lemma {:induction false} RunRefinesQueue(q: Queue, ops: seq<Op>)
    requires q.Sound()
    ensures var r := ApplyAll(q, ops);
            && Fifo(r.Live(), r.limit) == FifoApplyAll(Fifo(q.Live(), q.limit), ops)
            && r.Settled()
            && (r.head == 0 || r.head < |r.Live()|)
            && |r.storage| <= 2 * |r.Live()|
            && r.moved <= 2 * r.consumed
    decreases |ops|
  {
    if ops != [] {
      StepRefines(q, ops[0]);
      RunRefinesQueue(Apply(q, ops[0]), ops[1..]);
    }
  }

  /** The factor two is reached: one byte consumed out of three makes two move. */
  lemma CostBoundIsTight()
    ensures var q := Queue("abc", 0, 3, 0, 0).Take(1);
            q.moved == 2 * q.consumed == 2 && q.Live() == "bc"
  {
  }

  class Buffer {
    var storage: string
    var head: nat
    var cmbs: nat
    var capacity: nat
    ghost var moved: nat
    ghost var consumed: nat

    ghost predicate Valid()
      reads this
    {
      View().Sound() && 0 < capacity
    }

    ghost function View(): Queue
      reads this
    {
      Queue(storage, head, cmbs, moved, consumed)
    }

    /** The unread bytes. */
    function Contents(): string
      reads this
    {
      if head <= |storage| then storage[head..] else ""
    }

    constructor (clientMaxBodySize: nat)
      ensures Valid() && View() == Queue("", 0, clientMaxBodySize, 0, 0)
    {
      cmbs, head, storage := clientMaxBodySize, 0, "";
      capacity := InitialCapacity(clientMaxBodySize);
      moved, consumed := 0, 0;
    }

    /** `thrown` stands for BodyLimitException; the buffer is then untouched. */
    method Append(src: string) returns (thrown: bool)
      requires Valid()
      modifies this
      ensures Valid() && View() == old(View()).Put(src, cmbs) && cmbs == old(cmbs)
      ensures thrown == !old(View()).Fits(|src|, cmbs)
      ensures Contents() == if thrown then old(Contents()) else old(Contents()) + src
    {
      PutLive(View(), src, cmbs);
      thrown := AppendWithin(src, cmbs);
    }

    method AppendResult(src: string) returns (thrown: bool)
      requires Valid()
      modifies this
      ensures Valid() && View() == old(View()).Put(src, LIMIT_REQUEST_BODY)
      ensures thrown == !old(View()).Fits(|src|, LIMIT_REQUEST_BODY)
      ensures Contents() == if thrown then old(Contents()) else old(Contents()) + src
    {
      PutLive(View(), src, LIMIT_REQUEST_BODY);
      thrown := AppendWithin(src, LIMIT_REQUEST_BODY);
    }

    method AppendWithin(src: string, bound: nat) returns (thrown: bool)
      requires head <= |storage| && 0 < capacity
      modifies this
      ensures head <= |storage| && 0 < capacity
      ensures View() == old(View()).Put(src, bound)
      ensures thrown == !old(View()).Fits(|src|, bound)
    {
      if |src| == 0 { return false; }
      if |storage| - head + |src| > bound { return true; }
      if head > 0 && head >= |storage| / 2 { Compact(); }
      EnsureCapacity(|storage| + |src|);
      storage := storage + src;
      if |storage| > capacity {
        var grown: nat :| grown >= |storage|;  // the growth policy is the allocator's
        capacity := grown;
      }
      thrown := false;
    }

    method Consume(n: nat)
      requires Valid()
      modifies this
      ensures Valid() && View() == old(View()).Take(n)
      ensures Contents() == if n <= |old(Contents())| then old(Contents())[n..] else ""
      ensures cmbs == old(cmbs)
    {
      TakeLive(View(), n);
      ghost var q := View();
      var k := if n > |storage| - head then |storage| - head else n;
      head := head + k;
      consumed := consumed + k;
      if head > 0 && head >= |storage| / 2 { Compact(); }
      if head == |storage| { Reset(); }
      assert View() == q.Take(n);
    }

    /** Also the way out of the erased state. */
    method Reset()
      modifies this
      ensures View() == old(View()).Rewind() && 0 < capacity
      ensures old(moved <= 2 * consumed) ==> Valid()
      ensures Contents() == ""
    {
      head := 0;
      storage := "";
      capacity := InitialCapacity(cmbs);
    }

    method Earase()
      modifies this
      ensures View() == old(View()).Erase() && Contents() == ""
    {
      storage := "";
      capacity := 0;
    }

    method SetMaxSize(newMax: nat)
      modifies this`cmbs
      ensures View() == old(View()).Limited(newMax)
    {
      cmbs := newMax;
    }

    method Compact()
      requires head <= |storage| && 0 < capacity
      modifies this`storage, this`head, this`moved
      ensures View() == old(View()).Compact() && head == 0
    {
      if head == 0 { return; }
      moved := moved + |storage[head..]|;
      storage := storage[head..];
      head := 0;
    }

    /** The doubling loop ends because the capacity starts above zero: an erased buffer would
        spin here for ever. */
    method EnsureCapacity(needed: nat)
      requires 0 < capacity
      modifies this`capacity
      ensures capacity >= old(capacity)
      ensures capacity < needed ==> cmbs < needed
    {
      var cap := capacity;
      while cap < needed
        invariant cap >= capacity
        decreases needed - cap
      {
        cap := cap * 2;
        if cap > cmbs { cap := cmbs; break; }
      }
      if cap > capacity { capacity := cap; }
    }
  }
}
