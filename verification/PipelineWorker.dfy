/** The worker's and the dispatcher's code between two channel operations, against the steps they make
    (internal/process/pipeline/worker.go:97-168, dispatch.go:21-48, batch.go).
 */
module PipelineWorker {
  import opened Wrappers
  import opened Processing
  import opened Uploaders
  import opened PipelineSteps
  import F = FlushThreshold

  class Batch<M> {
    var models: seq<M>
    const cap: int

    constructor (cap: int)
      ensures models == [] && this.cap == cap
    {
      this.cap := cap;
      models := [];
    }

    method Add(m: M)
      modifies this
      ensures models == old(models) + [m]
    {
      models := models + [m];
    }

    method Reset()
      modifies this
      ensures models == []
    {
      models := [];
    }

    predicate Full()
      reads this
    {
      |models| >= cap
    }

    predicate Empty()
      reads this
    {
      |models| == 0
    }
  }

  /** Writes a batch, if there is anything in it, and resets it. */
  method FlushBatch<M>(t: Target, b: Batch<M>, sink: Sink<M>)
    modifies b, sink
    ensures b.models == []
    ensures sink.bulks == FlushOne(old(sink.bulks), t, old(b.models))
  {
    if b.Empty() {
      return;
    }
    sink.BulkWrite(t, b.models);
    b.Reset();
  }

  class PoolWorker<M> {
    const userBatch: Batch<M>
    const eventBatch: Batch<M>
    const deadBatch: Batch<M>
    const sink: Sink<M>

    constructor (c: Setup)
      ensures Valid(c) && fresh(userBatch) && fresh(eventBatch) && fresh(deadBatch) && fresh(sink)
      ensures forall q, p, seen, rs ::
                Value(q, p, seen, rs) == EmptyWorker<M>().(queue := q, phase := p, seen := seen, results := rs)
    {
      userBatch := new Batch(c.sizes.max);
      eventBatch := new Batch(c.sizes.max);
      deadBatch := new Batch(c.deadCap);
      sink := new Sink();
    }

    ghost predicate Valid(c: Setup) {
      && userBatch != eventBatch && eventBatch != deadBatch && userBatch != deadBatch
      && deadBatch.cap == c.deadCap
    }

    /** The worker as a step sees it. */
    ghost function Value(queue: seq<nat>, phase: Phase, seen: seq<nat>, results: seq<LineResult<M>>): Worker<M>
      reads userBatch, eventBatch, deadBatch, sink
    {
      Worker(queue, phase, seen, results, userBatch.models, eventBatch.models, deadBatch.models, sink.bulks)
    }

    method Flush(c: Setup, ghost queue: seq<nat>, ghost phase: Phase, ghost seen: seq<nat>,
                 ghost results: seq<LineResult<M>>)
      requires Valid(c)
      modifies userBatch, eventBatch, deadBatch, sink
      ensures Value(queue, phase, seen, results) == Flushed(old(Value(queue, phase, seen, results)))
    {
      FlushBatch(Users, userBatch, sink);
      FlushBatch(Events, eventBatch, sink);
      FlushBatch(DeadLetters, deadBatch, sink);
    }

    /** One line's result, as the first part of the receive case treats it; `deciding` when it goes on to the
        threshold. */
    method Classify(c: Setup, res: LineResult<M>, timeUp: bool, ghost line: nat, ghost queue: seq<nat>,
                    ghost seen: seq<nat>, ghost results: seq<LineResult<M>>) returns (deciding: bool)
      requires Valid(c) && (res.kind != Filtered ==> res.model.Some?)
      modifies userBatch, eventBatch, deadBatch, sink
      ensures Value(queue, if deciding then Deciding else Idle, seen + [line], results + [res]) ==
              Classified(c, old(Value(queue, Holding(line), seen, results)), res, timeUp)
    {
      hide Flushed;
      match res.kind {
        case ParseError =>
          deadBatch.Add(res.model.value);
          if deadBatch.Full() || timeUp {
            Flush(c, queue, Idle, seen + [line], results + [res]);
          }
          return false;
        case IdentityError =>
          deadBatch.Add(res.model.value);
          return false;
        case Filtered =>
          return false;
        case User =>
          userBatch.Add(res.model.value);
        case Event =>
          eventBatch.Add(res.model.value);
      }
      return true;
    }

    /** The threshold check that follows a write, on the backlog read at that moment. */
    method Decide(c: Setup, backlog: nat, timeUp: bool, ghost queue: seq<nat>, ghost seen: seq<nat>,
                  ghost results: seq<LineResult<M>>)
      requires Valid(c) && |queue| == backlog
      modifies userBatch, eventBatch, deadBatch, sink
      ensures var k := old(Value(queue, Idle, seen, results));
              Value(queue, Idle, seen, results) == if NeedsFlush(c, k, timeUp) then Flushed(k) else k
    {
      hide Flushed;
      var threshold := F.ComputeFlushThreshold(c.sizes, backlog, c.channelSize);
      hide F.ComputeFlushThreshold;
      if |userBatch.models| >= threshold || |eventBatch.models| >= threshold || timeUp {
        Flush(c, queue, Idle, seen, results);
      }
    }

    /** The ticker's case: flush if anything is pending. */
    method OnTick(c: Setup, ghost queue: seq<nat>, ghost seen: seq<nat>, ghost results: seq<LineResult<M>>)
      requires Valid(c)
      modifies userBatch, eventBatch, deadBatch, sink
      ensures Value(queue, Idle, seen, results) == Flushed(old(Value(queue, Idle, seen, results)))
    {
      if !userBatch.Empty() || !eventBatch.Empty() || !deadBatch.Empty() {
        Flush(c, queue, Idle, seen, results);
      }
    }
  }

  // --- Dispatching one line --------------------------------------------------------------------------

  /** The workers' channels. */
  class Channels {
    var queues: seq<seq<nat>>
    const size: nat

    constructor (n: nat, size: nat)
      ensures |queues| == n && this.size == size && forall w :: 0 <= w < n ==> queues[w] == []
    {
      this.size := size;
      queues := seq(n, i => []);
    }

    /** A send that gives up at once if the channel is full. */
    method TrySend(w: nat, line: nat) returns (sent: bool)
      requires w < |queues|
      modifies this
      ensures sent <==> |old(queues[w])| < size
      ensures queues == if sent then old(queues)[w := old(queues[w]) + [line]] else old(queues)
    {
      sent := |queues[w]| < size;
      if sent {
        queues := queues[w := queues[w] + [line]];
      }
    }

    /** One line, by the hash of its routing key: its own worker first, then the others round the ring; None when
        all are full, and the caller blocks on its own worker. */
    method DispatchLine(route: nat, line: nat) returns (to: Option<nat>)
      requires queues != []
      modifies this
      ensures var home, n := route % |old(queues)|, |old(queues)|;
              && (to.None? <==> forall w :: 0 <= w < n ==> |old(queues)[w]| >= size)
              && (|old(queues)[home]| < size ==> to == Some(home))
              && (to.None? ==> queues == old(queues))
              && (to.Some? ==>
                    && to.value < n && |old(queues)[to.value]| < size
                    && queues == old(queues)[to.value := old(queues)[to.value] + [line]]
                    && forall w :: 0 <= w < n && Distance(home, w, n) < Distance(home, to.value, n) ==>
                         |old(queues)[w]| >= size)
    {
      var idx := route % |queues|;
      to := Spill(idx, line);
    }

    /** The affinity worker first, then the others in cyclic order, without blocking.  When every channel is full
        the caller blocks on the affinity worker. */
    method Spill(idx: nat, line: nat) returns (to: Option<nat>)
      requires idx < |queues|
      modifies this
      ensures to.None? <==> forall w :: 0 <= w < |old(queues)| ==> |old(queues)[w]| >= size
      ensures to.None? ==> queues == old(queues)
      ensures to.Some? ==>
                && to.value < |old(queues)| && |old(queues)[to.value]| < size
                && queues == old(queues)[to.value := old(queues)[to.value] + [line]]
                && forall w :: 0 <= w < |old(queues)|
                               && Distance(idx, w, |old(queues)|) < Distance(idx, to.value, |old(queues)|) ==>
                     |old(queues)[w]| >= size
    {
      var n := |queues|;
      var sent := TrySend(idx, line);
      if sent {
        return Some(idx);
      }
      for offset := 1 to n
        invariant queues == old(queues)
        invariant forall w :: 0 <= w < n && Distance(idx, w, n) < offset ==> |queues[w]| >= size
      {
        var alt := (idx + offset) % n;
        DistanceIs(idx, offset, n);
        sent := TrySend(alt, line);
        if sent {
          return Some(alt);
        }
        forall w | 0 <= w < n && Distance(idx, w, n) == offset ensures w == alt {
        }
      }
      return None;
    }
  }

  /** How many steps forward, round the ring of n, lead from one worker to another. */
  function Distance(start: nat, to: nat, n: nat): nat
    requires start < n && to < n
  {
    if to >= start then to - start else to + n - start
  }

  lemma DistanceIs(start: nat, offset: nat, n: nat)
    requires start < n && offset < n
    ensures Distance(start, (start + offset) % n, n) == offset
  {
    hide Distance;
    WrapOnce(start + offset, n);
    DistanceBack(start, offset, n);
  }

  lemma WrapOnce(i: nat, n: nat)
    requires i < 2 * n
    ensures i % n == if i < n then i else i - n
  {
  }

  lemma DistanceBack(start: nat, offset: nat, n: nat)
    requires start < n && offset < n
    ensures Distance(start, if start + offset < n then start + offset else start + offset - n, n) == offset
  {
  }
}
