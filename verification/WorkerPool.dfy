/**
 * Mapping a list with a bounded number of cooperative workers. A worker runs without interruption from one await to
 * the next; between awaits any other worker may go on.
 */
module WorkerPool {
  import opened Options

  // An `ensures P(..) == true` promises P(..) as a whole: unlike a bare P(..), it is not taken apart where it is proved.

  function Max(a: int, b: int): int {
    if a >= b then a else b
  }

  function Min(a: int, b: int): int {
    if a <= b then a else b
  }

  // Rounds towards zero.
  function Trunc(x: real): int {
    if x >= 0.0 then x.Floor else -((-x).Floor)
  }

  /** At least one worker, at most one per item, and otherwise as many as asked for. */
  function WorkerCount(concurrency: real, length: nat): (n: nat)
    requires length > 0
    ensures 1 <= n <= length && (concurrency < 1.0 ==> n == 1) && (concurrency >= length as real ==> n == length)
    ensures 1.0 <= concurrency < length as real ==> n as real <= concurrency < n as real + 1.0
  {
    Max(1, Min(Trunc(concurrency), length))
  }

  // What a plain loop would produce; items that count as false are left out.
  function SequentialMap<T, R>(items: seq<T>, falsy: T -> bool, mapper: (T, nat) -> R): (r: seq<Option<R>>)
    ensures |r| == |items|
    ensures forall i :: 0 <= i < |items| ==> r[i] == Mapped(items[i], i, falsy, mapper)
  {
    if items == [] then []
    else
      var n := |items| - 1;
      SequentialMap(items[..n], falsy, mapper) + [Mapped(items[n], n, falsy, mapper)]
  }

  function Mapped<T, R>(item: T, i: nat, falsy: T -> bool, mapper: (T, nat) -> R): Option<R> {
    if falsy(item) then None else Some(mapper(item, i))
  }

  // Between awaits a worker waits for its mapper, or has returned; Ready is a worker about to claim an index.
  datatype Worker = Ready | Mapping(index: nat) | Returned

  function Running(workers: seq<Worker>): (n: nat)
    ensures n <= |workers|
  {
    if workers == [] then 0
    else Running(workers[..|workers| - 1]) + if workers[|workers| - 1].Mapping? then 1 else 0
  }

  function Active(workers: seq<Worker>): (n: nat)
    ensures n <= |workers|
  {
    if workers == [] then 0
    else Active(workers[..|workers| - 1]) + if workers[|workers| - 1].Returned? then 0 else 1
  }

  lemma {:induction false} CountsAfter(workers: seq<Worker>, w: nat, next: Worker)
    requires w < |workers|
    ensures Running(workers[w := next]) ==
              Running(workers) - (if workers[w].Mapping? then 1 else 0) + (if next.Mapping? then 1 else 0)
    ensures Active(workers[w := next]) ==
              Active(workers) - (if workers[w].Returned? then 0 else 1) + (if next.Returned? then 0 else 1)
  {
    var n := |workers| - 1;
    if w < n {
      CountsAfter(workers[..n], w, next);
      assert workers[w := next][..n] == workers[..n][w := next];
    } else {
      assert workers[w := next][..n] == workers[..n];
    }
  }

  lemma {:induction false} SomeoneActive(workers: seq<Worker>)
    ensures Active(workers) > 0 <==> exists w :: 0 <= w < |workers| && !workers[w].Returned?
  {
    if workers != [] {
      var n := |workers| - 1;
      SomeoneActive(workers[..n]);
      if !workers[n].Returned? {
        assert 0 <= n < |workers| && !workers[n].Returned?;
      } else if Active(workers[..n]) > 0 {
        var w :| 0 <= w < n && !workers[..n][w].Returned?;
        assert !workers[w].Returned?;
      }
    }
  }

  lemma {:induction false} AllReady(n: nat)
    ensures Running(seq(n, _ => Ready)) == 0 && Active(seq(n, _ => Ready)) == n
  {
    if n > 0 {
      assert seq(n, _ => Ready)[..n - 1] == seq(n - 1, _ => Ready);
      AllReady(n - 1);
    }
  }

  // Every index claimed so far is in the hands of exactly one worker, or its result is in place.
  ghost predicate InOrder<T, R>(items: seq<T>, falsy: T -> bool, mapper: (T, nat) -> R, result: seq<Option<R>>,
                                workers: seq<Worker>, index: nat)
  {
    && |result| == |items|
    && (forall w :: 0 <= w < |workers| && workers[w].Mapping? ==>
          workers[w].index < index && workers[w].index < |items|
          && !falsy(items[workers[w].index]) && result[workers[w].index] == None)
    && (forall v, w :: 0 <= v < w < |workers| && workers[v].Mapping? && workers[w].Mapping? ==>
          workers[v].index != workers[w].index)
    && (forall i :: 0 <= i < index && i < |items| ==>
          result[i] == Mapped(items[i], i, falsy, mapper)
          || exists w :: 0 <= w < |workers| && workers[w] == Mapping(i))
    && (forall i :: index <= i < |items| ==> result[i] == None)
    && (forall w :: 0 <= w < |workers| && workers[w].Returned? ==> index > |items|)
  }

  // The indices the mapper is called with, as far as they are claimed.
  function Calls<T>(items: seq<T>, falsy: T -> bool, index: nat): seq<nat>
    requires index <= |items|
  {
    if index == 0 then []
    else Calls(items, falsy, index - 1) + if falsy(items[index - 1]) then [] else [index - 1]
  }

  lemma {:induction false} CallsAreUnique<T>(items: seq<T>, falsy: T -> bool, index: nat)
    requires index <= |items|
    ensures var calls := Calls(items, falsy, index);
            && (forall i, j :: 0 <= i < j < |calls| ==> calls[i] < calls[j])
            && (forall k: nat :: k in calls <==> k < index && !falsy(items[k]))
  {
    if index > 0 {
      CallsAreUnique(items, falsy, index - 1);
      var before := Calls(items, falsy, index - 1);
      assert forall i :: 0 <= i < |before| ==> before[i] in before;
    }
  }

  lemma Claiming<T, R>(items: seq<T>, falsy: T -> bool, mapper: (T, nat) -> R, result: seq<Option<R>>,
                       workers: seq<Worker>, index: nat, w: nat, next: Worker)
    requires InOrder(items, falsy, mapper, result, workers, index) && w < |workers| && workers[w] == Ready
    requires next == if index >= |items| then Returned else if falsy(items[index]) then Ready else Mapping(index)
    ensures InOrder(items, falsy, mapper, result, workers[w := next], index + 1)
  {
    var after := workers[w := next];
    forall i | 0 <= i < index + 1 && i < |items| && result[i] != Mapped(items[i], i, falsy, mapper)
      ensures exists v :: 0 <= v < |after| && after[v] == Mapping(i)
    {
      if i < index {
        var v :| 0 <= v < |workers| && workers[v] == Mapping(i);
        assert after[v] == Mapping(i);
      } else {
        assert after[w] == Mapping(i);
      }
    }
  }

  lemma Finishing<T, R>(items: seq<T>, falsy: T -> bool, mapper: (T, nat) -> R, result: seq<Option<R>>,
                        workers: seq<Worker>, index: nat, w: nat)
    requires InOrder(items, falsy, mapper, result, workers, index) && w < |workers| && workers[w].Mapping?
    ensures var i := workers[w].index;
            InOrder(items, falsy, mapper, result[i := Some(mapper(items[i], i))], workers[w := Ready], index)
  {
    var i := workers[w].index;
    var after, filled := workers[w := Ready], result[i := Some(mapper(items[i], i))];
    forall k | 0 <= k < index && k < |items| && filled[k] != Mapped(items[k], k, falsy, mapper)
      ensures exists v :: 0 <= v < |after| && after[v] == Mapping(k)
    {
      var v :| 0 <= v < |workers| && workers[v] == Mapping(k);
      assert after[v] == Mapping(k);
    }
  }

  // From one await of a worker to its next: its mapper has ended, or it claims the next index.
  method GoOn<T, R>(items: seq<T>, falsy: T -> bool, mapper: (T, nat) -> R, result: array<Option<R>>,
                    workers: seq<Worker>, index: nat, w: nat) returns (next: Worker, index': nat)
    requires w < |workers| && !workers[w].Returned? && InOrder(items, falsy, mapper, result[..], workers, index)
    modifies result
    ensures InOrder(items, falsy, mapper, result[..], workers[w := next], index')
    ensures workers[w].Mapping? ==> next == Ready && index' == index
    ensures workers[w] == Ready ==>
              index' == index + 1
              && next == if index >= |items| then Returned else if falsy(items[index]) then Ready else Mapping(index)
  {
    if workers[w].Mapping? {
      var i := workers[w].index;
      Finishing(items, falsy, mapper, result[..], workers, index, w);
      ghost var before := result[..];
      result[i] := Some(mapper(items[i], i));
      assert result[..] == before[i := Some(mapper(items[i], i))];
      next, index' := Ready, index;
    } else {
      next := if index >= |items| then Returned else if falsy(items[index]) then Ready else Mapping(index);
      Claiming(items, falsy, mapper, result[..], workers, index, w, next);
      index' := index + 1;
    }
  }

  // The number of steps that are still to come.
  function StepsLeft(workers: seq<Worker>, length: nat, index: nat): int {
    2 * (length + |workers| - index) + Running(workers)
  }

  lemma StepShrinks(workers: seq<Worker>, w: nat, next: Worker, length: nat, index: nat, index': nat)
    requires w < |workers| && !workers[w].Returned? && index + Active(workers) <= length + |workers|
    requires workers[w].Mapping? ==> next == Ready && index' == index
    requires workers[w] == Ready ==> index' == index + 1 && (next.Returned? <==> index >= length)
    requires forall v :: 0 <= v < |workers| && workers[v].Returned? ==> index > length
    requires index <= length ==> Active(workers) == |workers|
    ensures 0 <= StepsLeft(workers[w := next], length, index') < StepsLeft(workers, length, index)
    ensures index' + Active(workers[w := next]) <= length + |workers|
    ensures index' <= length ==> Active(workers[w := next]) == |workers|
  {
    CountsAfter(workers, w, next);
  }

  ghost predicate PoolOk<T, R>(items: seq<T>, falsy: T -> bool, mapper: (T, nat) -> R, result: seq<Option<R>>,
                               workers: seq<Worker>, index: nat, calls: seq<nat>)
  {
    && InOrder(items, falsy, mapper, result, workers, index)
    && index + Active(workers) <= |items| + |workers| && (index <= |items| ==> Active(workers) == |workers|)
    && calls == Calls(items, falsy, Min(index, |items|))
  }

  // One worker goes on; which one is up to the event loop.
  method SomeoneGoesOn<T, R>(items: seq<T>, falsy: T -> bool, mapper: (T, nat) -> R, result: array<Option<R>>,
                             workers: seq<Worker>, index: nat, calls: seq<nat>)
    returns (workers': seq<Worker>, index': nat, calls': seq<nat>)
    requires PoolOk(items, falsy, mapper, result[..], workers, index, calls) && Active(workers) > 0
    modifies result
    ensures PoolOk(items, falsy, mapper, result[..], workers', index', calls') == true && |workers'| == |workers|
    ensures 0 <= StepsLeft(workers', |items|, index') < StepsLeft(workers, |items|, index)
  {
    SomeoneActive(workers);
    var w :| 0 <= w < |workers| && !workers[w].Returned?;
    var next;
    next, index' := GoOn(items, falsy, mapper, result, workers, index, w);
    StepShrinks(workers, w, next, |items|, index, index');
    workers' := workers[w := next];
    calls' := if next.Mapping? then calls + [index] else calls;
  }

  lemma StartsInOrder<T, R>(items: seq<T>, falsy: T -> bool, mapper: (T, nat) -> R, result: seq<Option<R>>, count: nat)
    requires |result| == |items| && forall i :: 0 <= i < |items| ==> result[i] == None
    ensures PoolOk(items, falsy, mapper, result, seq(count, _ => Ready), 0, [])
  {
    AllReady(count);
  }

  lemma AllDone<T, R>(items: seq<T>, falsy: T -> bool, mapper: (T, nat) -> R, result: seq<Option<R>>,
                      workers: seq<Worker>, index: nat, calls: seq<nat>)
    requires workers != [] && Active(workers) == 0 && PoolOk(items, falsy, mapper, result, workers, index, calls)
    ensures result == SequentialMap(items, falsy, mapper)
    ensures calls == Calls(items, falsy, |items|)
  {
    SomeoneActive(workers);
    assert workers[0].Returned?;
  }

  /**
   * Whichever worker goes on at each await, the call ends; the mapper is called once for each item that does not
   * count as false, never runs more often at a time than there are workers, and the result is that of a plain loop.
   */
  method MapWithConcurrency<T, R>(items: seq<T>, concurrency: real, falsy: T -> bool, mapper: (T, nat) -> R)
    returns (result: array<Option<R>>, calls: seq<nat>, peak: nat)
    ensures result[..] == SequentialMap(items, falsy, mapper)
    ensures forall i, j :: 0 <= i < j < |calls| ==> calls[i] != calls[j]
    ensures forall k: nat :: k in calls <==> k < |items| && !falsy(items[k])
    ensures items == [] ==> peak == 0
    ensures items != [] ==> peak <= WorkerCount(concurrency, |items|)
  {
    result, calls, peak := new Option<R>[|items|](_ => None), [], 0;
    if |items| == 0 {
      return;
    }
    var count := WorkerCount(concurrency, |items|);
    var workers := seq(count, _ => Ready);
    var index: nat := 0;
    StartsInOrder(items, falsy, mapper, result[..], count);
    while Active(workers) > 0
      invariant |workers| == count && peak <= count
      invariant PoolOk(items, falsy, mapper, result[..], workers, index, calls) == true
      decreases StepsLeft(workers, |items|, index)
    {
      workers, index, calls := SomeoneGoesOn(items, falsy, mapper, result, workers, index, calls);
      peak := Max(peak, Running(workers));
    }
    AllDone(items, falsy, mapper, result[..], workers, index, calls);
    CallsAreUnique(items, falsy, |items|);
  }
}
