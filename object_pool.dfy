/**
 * The blocking-queue object pool, taken sequentially: an idle FIFO queue and a
 * counter of the objects alive (idle or on loan). The abstract hooks of the pool
 * (creating a new object, validating a returned one) are code this model cannot
 * see, so their results are parameters.
 */
module ObjectPool {
  import opened Wrappers

  /** Seconds to wait before a get fails; negative means "forever". */
  const DefaultMaxWaitSecs: int := -1
  /** Objects created eagerly by default. */
  const DefaultMinKeep: int := 0
  /** Default cap on live objects; negative means no cap. */
  const DefaultMaxKeep: int := -1

  /** The mutable part of a pool: the idle queue (head first) and the live total. */
  datatype PoolState<T> = PoolState(queue: seq<T>, totalSize: int)

  function NumIdleOf<T>(s: PoolState<T>): int {
    |s.queue|
  }

  function NumActiveOf<T>(s: PoolState<T>): int {
    s.totalSize - |s.queue|
  }

  /** Counter consistency: `0 <= numIdle <= totalSize`, and `totalSize <= maxSize` when capped. */
  ghost predicate Consistent<T>(s: PoolState<T>, maxSize: int) {
    && 0 <= NumIdleOf(s) <= s.totalSize
    && (maxSize >= 0 ==> s.totalSize <= maxSize)
  }

  /**
   * get: with an empty queue and room under `maxSize`, the object `made` (what
   * createNew yields) is handed out directly and counted; otherwise the queue head
   * is polled, and polling an empty queue yields no object.
   */
  function GetStep<T>(s: PoolState<T>, maxSize: int, made: T): (r: (PoolState<T>, Option<T>))
    ensures r.1.Some? <==> |s.queue| > 0 || s.totalSize < maxSize
    ensures r.1.Some? ==> NumActiveOf(r.0) == NumActiveOf(s) + 1
    ensures r.1.None? ==> r.0 == s
    ensures r.0.totalSize == s.totalSize || (r.0.totalSize == s.totalSize + 1 <= maxSize && r.1 == Some(made))
    ensures r.1.Some? && r.1 != Some(made) ==> r.1.value in s.queue
  {
    if |s.queue| == 0 && s.totalSize < maxSize then
      (PoolState(s.queue, s.totalSize + 1), Some(made))
    else if |s.queue| == 0 then
      (s, None)
    else
      (PoolState(s.queue[1..], s.totalSize), Some(s.queue[0]))
  }

  /**
   * done(obj, valid): an invalid object is dropped from the count; a valid one is
   * queued when `maxSize < 0 || numIdle < maxIdle`, and dropped otherwise.
   */
  function DoneStep<T>(s: PoolState<T>, maxSize: int, maxIdle: int, obj: T, valid: bool): (r: PoolState<T>)
    ensures NumActiveOf(r) == NumActiveOf(s) - 1
    ensures r.queue == s.queue + [obj] || (r.queue == s.queue && r.totalSize == s.totalSize - 1)
    ensures r.queue != s.queue ==> valid
  {
    if !valid then
      PoolState(s.queue, s.totalSize - 1)
    else if maxSize < 0 || NumIdleOf(s) < maxIdle then
      PoolState(s.queue + [obj], s.totalSize)
    else
      PoolState(s.queue, s.totalSize - 1)
  }

  lemma CountersAgree<T>(s: PoolState<T>, maxSize: int)
    requires Consistent(s, maxSize)
    ensures NumIdleOf(s) == |s.queue| && NumIdleOf(s) + NumActiveOf(s) == s.totalSize
    ensures 0 <= NumIdleOf(s) && 0 <= NumActiveOf(s)
  {
  }

  lemma GetCreatesWhenEmptyAndRoom<T>(s: PoolState<T>, maxSize: int, made: T)
    requires |s.queue| == 0 && s.totalSize < maxSize
    ensures GetStep(s, maxSize, made) == (PoolState([], s.totalSize + 1), Some(made))
  {
  }

  lemma GetPollsHead<T>(s: PoolState<T>, maxSize: int, made: T)
    requires |s.queue| > 0
    ensures GetStep(s, maxSize, made).1 == Some(s.queue[0])
    ensures GetStep(s, maxSize, made).0 == PoolState(s.queue[1..], s.totalSize)
  {
  }

  /** With a negative `maxTotal` the fast path is never taken, so get never creates. */
  lemma GetNeverCreatesWhenUncapped<T>(s: PoolState<T>, maxSize: int, made: T)
    requires maxSize < 0 && s.totalSize >= 0
    ensures GetStep(s, maxSize, made).0.totalSize == s.totalSize
    ensures |s.queue| == 0 ==> GetStep(s, maxSize, made).1 == None
  {
  }

  /** On an empty queue at capacity, get returns no object and changes nothing. */
  lemma GetAtCapacityYieldsNothing<T>(s: PoolState<T>, maxSize: int, made: T)
    requires |s.queue| == 0 && s.totalSize >= maxSize
    ensures GetStep(s, maxSize, made) == (s, None)
  {
  }

  lemma DoneInvalidDiscards<T>(s: PoolState<T>, maxSize: int, maxIdle: int, obj: T)
    ensures DoneStep(s, maxSize, maxIdle, obj, false) == PoolState(s.queue, s.totalSize - 1)
  {
  }

  lemma DoneValidRequeuesOrDiscards<T>(s: PoolState<T>, maxSize: int, maxIdle: int, obj: T)
    ensures maxSize < 0 || |s.queue| < maxIdle ==>
      DoneStep(s, maxSize, maxIdle, obj, true) == PoolState(s.queue + [obj], s.totalSize)
    ensures !(maxSize < 0 || |s.queue| < maxIdle) ==>
      DoneStep(s, maxSize, maxIdle, obj, true) == PoolState(s.queue, s.totalSize - 1)
  {
  }

  /**
   * The retention test reads `maxSize`, not `maxIdle`: with a capped pool and a
   * negative `maxIdle` (documented as "no limit") every valid object is discarded.
   */
  lemma NegativeMaxIdleDiscardsWhenCapped<T>(s: PoolState<T>, maxSize: int, maxIdle: int, obj: T)
    requires maxSize >= 0 && maxIdle < 0
    ensures DoneStep(s, maxSize, maxIdle, obj, true) == PoolState(s.queue, s.totalSize - 1)
  {
  }

  /** Conversely an uncapped pool keeps every valid object, whatever `maxIdle` says. */
  lemma UncappedKeepsEveryValidObject<T>(s: PoolState<T>, maxSize: int, maxIdle: int, obj: T)
    requires maxSize < 0
    ensures DoneStep(s, maxSize, maxIdle, obj, true).queue == s.queue + [obj]
  {
  }

  lemma GetPreservesConsistency<T>(s: PoolState<T>, maxSize: int, made: T)
    requires Consistent(s, maxSize)
    ensures Consistent(GetStep(s, maxSize, made).0, maxSize)
  {
  }

  /** done and remove keep the counters consistent when the object was on loan. */
  lemma DonePreservesConsistency<T>(s: PoolState<T>, maxSize: int, maxIdle: int, obj: T, valid: bool)
    requires Consistent(s, maxSize) && NumActiveOf(s) >= 1
    ensures Consistent(DoneStep(s, maxSize, maxIdle, obj, valid), maxSize)
  {
  }

  /** One call on the pool, with the results of the hooks it consults. */
  datatype PoolOp<T> = GetOp(made: T) | DoneOp(obj: T, valid: bool) | RemoveOp(obj: T)

  function Apply<T>(s: PoolState<T>, maxSize: int, maxIdle: int, op: PoolOp<T>): PoolState<T> {
    match op
    case GetOp(made) => GetStep(s, maxSize, made).0
    case DoneOp(obj, valid) => DoneStep(s, maxSize, maxIdle, obj, valid)
    case RemoveOp(obj) => DoneStep(s, maxSize, maxIdle, obj, false)
  }

  function Run<T>(s: PoolState<T>, maxSize: int, maxIdle: int, ops: seq<PoolOp<T>>): PoolState<T>
    decreases |ops|
  {
    if ops == [] then s else Run(Apply(s, maxSize, maxIdle, ops[0]), maxSize, maxIdle, ops[1..])
  }

  /** Every done and remove in `ops` returns an object that is on loan at that point. */
  ghost predicate OnlyLoanedReturned<T>(s: PoolState<T>, maxSize: int, maxIdle: int, ops: seq<PoolOp<T>>)
    decreases |ops|
  {
    ops != [] ==>
      && (!ops[0].GetOp? ==> NumActiveOf(s) >= 1)
      && OnlyLoanedReturned(Apply(s, maxSize, maxIdle, ops[0]), maxSize, maxIdle, ops[1..])
  }

  /** Any sequence of calls that only returns loaned objects keeps the counters consistent. */
  lemma {:induction false} RunPreservesConsistency<T>(s: PoolState<T>, maxSize: int, maxIdle: int, ops: seq<PoolOp<T>>)
    requires Consistent(s, maxSize) && OnlyLoanedReturned(s, maxSize, maxIdle, ops)
    ensures Consistent(Run(s, maxSize, maxIdle, ops), maxSize)
    decreases |ops|
  {
    if ops != [] {
      match ops[0] {
        case GetOp(made) => GetPreservesConsistency(s, maxSize, made);
        case DoneOp(obj, valid) => DonePreservesConsistency(s, maxSize, maxIdle, obj, valid);
        case RemoveOp(obj) => DonePreservesConsistency(s, maxSize, maxIdle, obj, false);
      }
      RunPreservesConsistency(Apply(s, maxSize, maxIdle, ops[0]), maxSize, maxIdle, ops[1..]);
    }
  }

  /**
   * A pool capped at two live objects with one idle slot: two gets create two
   * objects, a third finds nothing; giving both back keeps one and discards the other.
   */
  lemma {:induction false} TwoLiveOneIdleScenario(a: int, b: int, c: int)
    ensures Run(PoolState([], 0), 2, 1, [GetOp(a), GetOp(b)]) == PoolState([], 2)
    ensures GetStep(PoolState([], 2), 2, c) == (PoolState([], 2), None)
    ensures Run(PoolState([], 2), 2, 1, [DoneOp(a, true), DoneOp(b, true)]) == PoolState([a], 1)
  {
    assert Run(PoolState([], 0), 2, 1, [GetOp(a), GetOp(b)])
        == Run(PoolState([], 1), 2, 1, [GetOp(b)]);
    assert Run(PoolState([], 1), 2, 1, [GetOp(b)])
        == Run(PoolState([], 2), 2, 1, []);
    assert [DoneOp(a, true), DoneOp(b, true)][1..] == [DoneOp(b, true)];
    assert DoneStep(PoolState([], 2), 2, 1, a, true) == PoolState([a], 2);
    assert Run(PoolState([], 2), 2, 1, [DoneOp(a, true), DoneOp(b, true)])
        == Run(PoolState([a], 2), 2, 1, [DoneOp(b, true)]);
    assert Run(PoolState([a], 2), 2, 1, [DoneOp(b, true)])
        == Run(PoolState([a], 1), 2, 1, []);
  }

  /** Valid objects given back to an uncapped pool come out of it in the order they went in. */
  lemma {:induction false} FifoOrder<T>(s: PoolState<T>, maxIdle: int, x: T, y: T, made: T)
    requires s.queue == []
    ensures var s1 := DoneStep(DoneStep(s, -1, maxIdle, x, true), -1, maxIdle, y, true);
            GetStep(s1, -1, made).1 == Some(x) &&
            GetStep(GetStep(s1, -1, made).0, -1, made).1 == Some(y)
  {
    var s1 := DoneStep(DoneStep(s, -1, maxIdle, x, true), -1, maxIdle, y, true);
    assert s1.queue == [x, y];
    assert GetStep(s1, -1, made).0.queue == [y];
  }

  /**
   * BlockingQueueObjectPool: the configuration, the idle queue and the live
   * counter. Leak tracking and the debug switch carry no behaviour.
   */
  class BlockingQueueObjectPool<T> {
    const poolName: string
    var maxWait: int
    var minSize: int
    var maxSize: int
    var maxIdle: int
    var trackLeaks: bool
    var debug: bool

    var totalSize: int
    var queue: seq<T>

    function State(): PoolState<T>
      reads this
    {
      PoolState(queue, totalSize)
    }

    ghost predicate Valid()
      reads this
    {
      Consistent(State(), maxSize)
    }

    /**
     * The full constructor: `debug` is forced on whatever is passed, `minSize`
     * is never assigned and stays 0, so `Init` creates nothing. `make(n)` is the
     * object createNew would yield on the n-th eager creation.
     */
    constructor (name: string, maxToKeep: int, maxTotal: int, trackLeaks: bool, debug: bool, make: nat -> T)
      ensures poolName == name && maxIdle == maxToKeep && maxSize == maxTotal
      ensures this.trackLeaks == trackLeaks && this.debug
      ensures maxWait == DefaultMaxWaitSecs && minSize == 0
      ensures queue == [] && totalSize == 0
      ensures Valid()
    {
      poolName := name;
      maxWait := DefaultMaxWaitSecs;
      minSize := 0;
      totalSize := 0;
      queue := [];
      maxIdle := maxToKeep;
      maxSize := maxTotal;
      this.trackLeaks := trackLeaks;
      this.debug := true;
      new;
      Init(make);
    }

    /** Creates `minSize` objects eagerly and queues them. */
    method Init(make: nat -> T)
      modifies this
      ensures var k := if minSize < 0 then 0 else minSize;
              queue == old(queue) + seq(k, i requires 0 <= i => make(i)) &&
              totalSize == old(totalSize) + k
      ensures minSize == old(minSize) && maxSize == old(maxSize) && maxIdle == old(maxIdle)
      ensures maxWait == old(maxWait) && trackLeaks == old(trackLeaks) && debug == old(debug)
    {
      var n := 0;
      while n < minSize
        invariant 0 <= n && (minSize >= 0 ==> n <= minSize) && (minSize < 0 ==> n == 0)
        invariant queue == old(queue) + seq(n, i requires 0 <= i => make(i))
        invariant totalSize == old(totalSize) + n
        invariant minSize == old(minSize) && maxSize == old(maxSize) && maxIdle == old(maxIdle)
        invariant maxWait == old(maxWait) && trackLeaks == old(trackLeaks) && debug == old(debug)
      {
        NewInstance(make(n));
        assert seq(n + 1, i requires 0 <= i => make(i)) == seq(n, i requires 0 <= i => make(i)) + [make(n)];
        n := n + 1;
      }
    }

    /** Counts a freshly created object and queues it. */
    method NewInstance(obj: T)
      modifies this`totalSize, this`queue
      ensures totalSize == old(totalSize) + 1 && queue == old(queue) + [obj]
    {
      totalSize := totalSize + 1;
      queue := queue + [obj];
    }

    /** done(t): gives an object back, validated by the pool's `validate` hook. */
    method Done(t: T, validate: T -> bool)
      modifies this`totalSize, this`queue
      ensures State() == DoneStep(old(State()), maxSize, maxIdle, t, validate(t))
      ensures old(Valid()) && old(NumActive()) >= 1 ==> Valid()
    {
      DoneWithValidity(t, validate(t));
    }

    /** done(obj, valid): requeues or discards per the retention rule. */
    method DoneWithValidity(obj: T, valid: bool)
      modifies this`totalSize, this`queue
      ensures State() == DoneStep(old(State()), maxSize, maxIdle, obj, valid)
      ensures old(Valid()) && old(NumActive()) >= 1 ==> Valid()
    {
      ghost var before := State();
      if Consistent(before, maxSize) && NumActiveOf(before) >= 1 {
        DonePreservesConsistency(before, maxSize, maxIdle, obj, valid);
      }
      if !valid {
        totalSize := totalSize - 1;
      } else {
        if maxSize < 0 || NumIdle() < maxIdle {
          queue := queue + [obj];
        } else {
          totalSize := totalSize - 1;
        }
      }
    }

    /** remove: discards the object whatever its validity. */
    method Remove(t: T)
      modifies this`totalSize, this`queue
      ensures State() == PoolState(old(queue), old(totalSize) - 1)
      ensures old(Valid()) && old(NumActive()) >= 1 ==> Valid()
    {
      DoneWithValidity(t, false);
    }

    /** get(): the same as get(maxWait). */
    method Get(made: T) returns (obj: Option<T>)
      modifies this`totalSize, this`queue
      ensures (State(), obj) == GetStep(old(State()), maxSize, made)
      ensures old(Valid()) ==> Valid()
    {
      obj := GetWithin(maxWait, made);
    }

    /**
     * get(waitTime): `waitTime` is ignored; the poll uses `maxWait` (negative by
     * default), which returns at once on an empty queue. `made` is what createNew
     * would yield if the fast path is taken.
     */
    method GetWithin(waitTime: int, made: T) returns (obj: Option<T>)
      modifies this`totalSize, this`queue
      ensures (State(), obj) == GetStep(old(State()), maxSize, made)
      ensures old(Valid()) ==> Valid()
    {
      if |queue| == 0 && totalSize < maxSize {
        obj := Some(made);
        totalSize := totalSize + 1;
      } else if |queue| == 0 {
        obj := None;
      } else {
        obj := Some(queue[0]);
        queue := queue[1..];
      }
    }

    function NumActive(): (n: int)
      reads this
      ensures n + NumIdle() == totalSize
      ensures Valid() ==> 0 <= n <= totalSize
    {
      totalSize - |queue|
    }

    function NumIdle(): (n: int)
      reads this
      ensures n == |queue|
      ensures Valid() ==> 0 <= n <= totalSize
    {
      |queue|
    }
  }
}
