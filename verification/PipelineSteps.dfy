/** The dispatcher and its workers, every channel operation its own step
    (internal/process/pipeline/dispatch.go, worker.go, batch.go).

    The input is finite and nothing is cancelled.  Lines are named by their place in the input.  What
    processing a line does is chosen freely by the schedule, as are the moments at which the flush interval
    has passed; what it gives and how it is counted follow from that.
 */
module PipelineSteps {
  import opened Wrappers
  import opened Processing
  import opened Uploaders
  import F = FlushThreshold

  /** `route` is the hash of a line's routing key. */
  datatype Setup = Setup(input: seq<string>, route: string -> nat, workers: nat, channelSize: nat,
                         sizes: F.Sizes, deadCap: int)

  /** What the configuration's defaults guarantee. */
  predicate Usable(c: Setup) {
    c.workers >= 1 && c.channelSize >= 1 && 1 <= c.sizes.min <= c.sizes.initial <= c.sizes.max
  }

  /** Before the next line; trying a worker without blocking; blocked on the affinity worker; channels closed. */
  datatype Dispatcher = Receiving | Trying(offset: nat) | Blocked | Closed

  datatype Phase = Idle | Holding(line: nat) | Deciding | Finished

  datatype Worker<M> = Worker(
    queue: seq<nat>, phase: Phase, seen: seq<nat>, results: seq<LineResult<M>>,
    user: seq<M>, event: seq<M>, dead: seq<M>, bulks: seq<Bulk<M>>)

  /** homes[i] is the worker that line i was sent to; lines are sent in input order.  `fates` holds what happened to
      the lines processed so far, in the order they were. */
  datatype State<M> = State(dispatcher: Dispatcher, homes: seq<nat>, workers: seq<Worker<M>>, stats: Counts,
                            fates: seq<Fate<M>>)

  datatype Step<M> =
    | NextLine
    | Try
    | Unblock
    | Close
    | Receive(w: nat)
    | Classify(w: nat, fate: Fate<M>, timeUp: bool)
    | Decide(w: nat, timeUp: bool)
    | Tick(w: nat)
    | Finish(w: nat)

  function EmptyWorker<M>(): Worker<M> {
    Worker([], Idle, [], [], [], [], [], [])
  }

  function Init<M>(c: Setup): State<M> {
    State(Receiving, [], seq(c.workers, i => EmptyWorker()), ZERO, [])
  }

  // --- Dispatching --------------------------------------------------------------------------------

  /** The line in the dispatcher's hand, or the next to take. */
  function Current<M>(s: State<M>): nat {
    |s.homes|
  }

  /** The worker that the dispatcher tries at an offset from the affinity worker. */
  function Candidate(c: Setup, line: nat, offset: nat): nat
    requires line < |c.input| && c.workers >= 1
    ensures Candidate(c, line, offset) < c.workers
  {
    (c.route(c.input[line]) % c.workers + offset) % c.workers
  }

  predicate HasRoom<M>(c: Setup, s: State<M>, w: nat)
    requires w < |s.workers|
  {
    |s.workers[w].queue| < c.channelSize
  }

  /** The current line goes into a worker's channel. */
  function Send<M>(s: State<M>, w: nat): State<M>
    requires w < |s.workers|
  {
    var k := s.workers[w];
    s.(dispatcher := Receiving, homes := s.homes + [w],
       workers := s.workers[w := k.(queue := k.queue + [Current(s)])])
  }

  // --- Working ---------------------------------------------------------------------------------------

  function FlushOne<M>(bulks: seq<Bulk<M>>, t: Target, models: seq<M>): seq<Bulk<M>> {
    if models == [] then bulks else bulks + [Bulk(t, models)]
  }

  /** Users, then events, then dead letters; empty batches are not sent. */
  function Flushed<M>(k: Worker<M>): Worker<M> {
    k.(bulks := FlushOne(FlushOne(FlushOne(k.bulks, Users, k.user), Events, k.event), DeadLetters, k.dead),
       user := [], event := [], dead := [])
  }

  function Threshold<M>(c: Setup, k: Worker<M>): int {
    F.ComputeFlushThreshold(c.sizes, |k.queue|, c.channelSize)
  }

  predicate NeedsFlush<M>(c: Setup, k: Worker<M>, timeUp: bool) {
    |k.user| >= Threshold(c, k) || |k.event| >= Threshold(c, k) || timeUp
  }

  /** A line has been processed: its model joins a batch.  Only a parse error flushes at once, when dead letters
      are full or the interval has passed; only a write goes on to the threshold. */
  function Classified<M>(c: Setup, k: Worker<M>, r: LineResult<M>, timeUp: bool): Worker<M>
    requires k.phase.Holding? && (r.kind != Filtered ==> r.model.Some?)
  {
    var k' := k.(phase := Idle, seen := k.seen + [k.phase.line], results := k.results + [r]);
    match r.kind
    case ParseError =>
      var k'' := k'.(dead := k.dead + [r.model.value]);
      if |k''.dead| >= c.deadCap || timeUp then Flushed(k'') else k''
    case IdentityError => k'.(dead := k.dead + [r.model.value])
    case Filtered => k'
    case User => k'.(phase := Deciding, user := k.user + [r.model.value])
    case Event => k'.(phase := Deciding, event := k.event + [r.model.value])
  }

  // --- Steps ---------------------------------------------------------------------------------------------

  predicate Enabled<M>(c: Setup, s: State<M>, step: Step<M>)
    requires Usable(c) && |s.workers| == c.workers
  {
    match step
    case NextLine => s.dispatcher.Receiving? && Current(s) < |c.input|
    case Try => s.dispatcher.Trying? && Current(s) < |c.input|
    case Unblock => s.dispatcher.Blocked? && Current(s) < |c.input| && HasRoom(c, s, Candidate(c, Current(s), 0))
    case Close => s.dispatcher.Receiving? && Current(s) == |c.input|
    case Receive(w) => w < c.workers && s.workers[w].phase.Idle? && s.workers[w].queue != []
    case Classify(w, _, _) => w < c.workers && s.workers[w].phase.Holding?
    case Decide(w, _) => w < c.workers && s.workers[w].phase.Deciding?
    case Tick(w) => w < c.workers && s.workers[w].phase.Idle?
    case Finish(w) => w < c.workers && s.workers[w].phase.Idle? && s.workers[w].queue == [] && s.dispatcher.Closed?
  }

  function SetWorker<M>(s: State<M>, w: nat, k: Worker<M>): State<M>
    requires w < |s.workers|
  {
    s.(workers := s.workers[w := k])
  }

  function Next<M>(c: Setup, s: State<M>, step: Step<M>): State<M>
    requires Usable(c) && |s.workers| == c.workers && Enabled(c, s, step)
  {
    match step
    case NextLine => s.(dispatcher := Trying(0))
    case Try =>
      var w := Candidate(c, Current(s), s.dispatcher.offset);
      if HasRoom(c, s, w) then Send(s, w)
      else s.(dispatcher := if s.dispatcher.offset + 1 < c.workers then Trying(s.dispatcher.offset + 1) else Blocked)
    case Unblock => Send(s, Candidate(c, Current(s), 0))
    case Close => s.(dispatcher := Closed)
    case Receive(w) =>
      var k := s.workers[w];
      SetWorker(s, w, k.(phase := Holding(k.queue[0]), queue := k.queue[1..]))
    case Classify(w, f, timeUp) =>
      SetWorker(s, w, Classified(c, s.workers[w], ResultOf(f), timeUp))
        .(stats := Tally(s.stats, f), fates := s.fates + [f])
    case Decide(w, timeUp) =>
      var k := s.workers[w].(phase := Idle);
      SetWorker(s, w, if NeedsFlush(c, k, timeUp) then Flushed(k) else k)
    case Tick(w) => SetWorker(s, w, Flushed(s.workers[w]))
    case Finish(w) => SetWorker(s, w, Flushed(s.workers[w]).(phase := Finished))
  }

  function After<M>(c: Setup, s: State<M>, steps: seq<Step<M>>): Option<State<M>>
    requires Usable(c)
    decreases |steps|
  {
    if steps == [] then Some(s)
    else if |s.workers| != c.workers || !Enabled(c, s, steps[0]) then None
    else After(c, Next(c, s, steps[0]), steps[1..])
  }

  // --- What every worker keeps ------------------------------------------------------------------------------

  function Held<M>(k: Worker<M>): seq<nat> {
    if k.phase.Holding? then [k.phase.line] else []
  }

  /** Everything a worker was ever sent, in order: done, in hand, still queued. */
  function Track<M>(k: Worker<M>): seq<nat> {
    k.seen + Held(k) + k.queue
  }

  /** The lines below n that were sent to a worker, in order. */
  function SentTo(homes: seq<nat>, w: nat): seq<nat> {
    if homes == [] then []
    else
      var n := |homes| - 1;
      SentTo(homes[..n], w) + (if homes[n] == w then [n] else [])
  }

  /** Every model is written once, in order, or still pending in its batch. */
  ghost predicate ModelsOk<M>(k: Worker<M>) {
    Carried(k.bulks, k.user, k.event, k.dead, k.results)
  }

  predicate BulkSized<M>(c: Setup, b: Bulk<M>) {
    b.models != [] && (b.target != DeadLetters ==> |b.models| <= c.sizes.max)
  }

  predicate SizesOk<M>(c: Setup, k: Worker<M>) {
    && |k.queue| <= c.channelSize
    && |k.user| <= c.sizes.max && |k.event| <= c.sizes.max
    && (!k.phase.Deciding? ==> |k.user| < c.sizes.max && |k.event| < c.sizes.max)
    && forall i :: 0 <= i < |k.bulks| ==> BulkSized(c, k.bulks[i])
  }

  predicate HasModels<M>(rs: seq<LineResult<M>>) {
    forall i :: 0 <= i < |rs| ==> rs[i].kind != Filtered ==> rs[i].model.Some?
  }

  ghost predicate WorkerOk<M>(c: Setup, k: Worker<M>) {
    && |k.results| == |k.seen| && HasModels(k.results)
    && ModelsOk(k)
    && SizesOk(c, k)
    && (k.phase.Finished? ==> k.queue == [] && k.user == [] && k.event == [] && k.dead == [])
  }

  // --- Each worker step keeps it ---------------------------------------------------------------------------------

  lemma FlushKeeps<M>(c: Setup, k: Worker<M>)
    requires Usable(c) && WorkerOk(c, k)
    ensures WorkerOk(c, Flushed(k))
    ensures Flushed(k).phase.Deciding? ==> |Flushed(k).user| < c.sizes.max && |Flushed(k).event| < c.sizes.max
  {
    var k' := Flushed(k);
    assert ModelsOk(k') by {
      forall t ensures Sent(k'.bulks, t) == Sent(k.bulks, t) + Pick(t, k.user, k.event, k.dead) {
        FlushSendsPending(k, t);
      }
      CarriedFlushed(k.bulks, k'.bulks, k.user, k.event, k.dead, k.results);
    }
    hide ModelsOk;
  }

  /** A flush hands over exactly what is pending, in order, and leaves nothing pending. */
  lemma FlushSendsPending<M>(k: Worker<M>, t: Target)
    ensures var k' := Flushed(k);
            && Sent(k'.bulks, t) == Sent(k.bulks, t) + Pick(t, k.user, k.event, k.dead)
            && k'.user == [] && k'.event == [] && k'.dead == []
            && k'.queue == k.queue && k'.phase == k.phase && k'.seen == k.seen && k'.results == k.results
  {
    var one := FlushOne(k.bulks, Users, k.user);
    var two := FlushOne(one, Events, k.event);
    FlushOneSends(k.bulks, Users, k.user, t);
    FlushOneSends(one, Events, k.event, t);
    FlushOneSends(two, DeadLetters, k.dead, t);
    hide Sent, FlushOne;
  }

  /** After a write the pending batches are handed over if the interval has passed, or the user or the event batch
      has reached the threshold that the worker's backlog gives; else they stay as they are. */
  lemma DecideSendsIff<M>(c: Setup, s: State<M>, w: nat, timeUp: bool, t: Target)
    requires Usable(c) && |s.workers| == c.workers && Enabled(c, s, Decide(w, timeUp))
    ensures var k, k' := s.workers[w], Next(c, s, Decide(w, timeUp)).workers[w];
            var threshold := F.ComputeFlushThreshold(c.sizes, |k.queue|, c.channelSize);
            if timeUp || |k.user| >= threshold || |k.event| >= threshold
            then Sent(k'.bulks, t) == Sent(k.bulks, t) + Pick(t, k.user, k.event, k.dead)
                 && k'.user == [] && k'.event == [] && k'.dead == []
            else k' == k.(phase := Idle)
  {
    hide Sent, Flushed, F.ComputeFlushThreshold;
    FlushSendsPending(s.workers[w].(phase := Idle), t);
  }

  /** While a line's result is handled, the pending batches are handed over exactly on a parse error that finds the
      dead-letter batch at its cap with it, or the interval passed; every other result only joins its batch. */
  lemma ClassifySendsIff<M>(c: Setup, k: Worker<M>, r: LineResult<M>, timeUp: bool, t: Target)
    requires k.phase.Holding? && (r.kind != Filtered ==> r.model.Some?)
    ensures var k' := Classified(c, k, r, timeUp);
            var dead := if r.kind == ParseError || r.kind == IdentityError then k.dead + [r.model.value] else k.dead;
            if r.kind == ParseError && (timeUp || |dead| >= c.deadCap)
            then Sent(k'.bulks, t) == Sent(k.bulks, t) + Pick(t, k.user, k.event, dead)
                 && k'.user == [] && k'.event == [] && k'.dead == [] && k'.phase == Idle
            else
              && k'.bulks == k.bulks && k'.dead == dead
              && k'.user == (if r.kind == User then k.user + [r.model.value] else k.user)
              && k'.event == (if r.kind == Event then k.event + [r.model.value] else k.event)
              && k'.phase == if r.kind == User || r.kind == Event then Deciding else Idle
  {
    hide Sent, Flushed;
    if r.kind == ParseError {
      FlushSendsPending(k.(phase := Idle, seen := k.seen + [k.phase.line], results := k.results + [r],
                           dead := k.dead + [r.model.value]), t);
    }
  }

  /** A tick, and the end of a worker, hand over everything that is pending. */
  lemma TickSendsPending<M>(c: Setup, s: State<M>, step: Step<M>, t: Target)
    requires Usable(c) && |s.workers| == c.workers && Enabled(c, s, step) && (step.Tick? || step.Finish?)
    ensures var k, k' := s.workers[step.w], Next(c, s, step).workers[step.w];
            && Sent(k'.bulks, t) == Sent(k.bulks, t) + Pick(t, k.user, k.event, k.dead)
            && k'.user == [] && k'.event == [] && k'.dead == []
  {
    hide Sent, Flushed;
    FlushSendsPending(s.workers[step.w], t);
  }

  lemma FlushOneSends<M>(bulks: seq<Bulk<M>>, u: Target, models: seq<M>, t: Target)
    ensures Sent(FlushOne(bulks, u, models), t) == Sent(bulks, t) + (if u == t then models else [])
  {
    if models != [] {
      SentSnoc(bulks, Bulk(u, models), t);
    }
  }

  lemma ReceiveKeeps<M>(c: Setup, k: Worker<M>)
    requires WorkerOk(c, k) && k.phase.Idle? && k.queue != []
    ensures WorkerOk(c, k.(phase := Holding(k.queue[0]), queue := k.queue[1..]))
    ensures Track(k.(phase := Holding(k.queue[0]), queue := k.queue[1..])) == Track(k)
  {
    hide Carried;
  }

  lemma ClassifyKeeps<M>(c: Setup, k: Worker<M>, r: LineResult<M>, timeUp: bool)
    requires Usable(c) && WorkerOk(c, k) && k.phase.Holding? && (r.kind != Filtered ==> r.model.Some?)
    ensures WorkerOk(c, Classified(c, k, r, timeUp))
    ensures Track(Classified(c, k, r, timeUp)) == Track(k)
    ensures Classified(c, k, r, timeUp).results == k.results + [r]
  {
    CarriedMore(k.bulks, k.user, k.event, k.dead, k.results, r);
    hide Carried;
    assert k.seen + [k.phase.line] + [] + k.queue == k.seen + [k.phase.line] + k.queue;
    var k' := k.(phase := Idle, seen := k.seen + [k.phase.line], results := k.results + [r]);
    if r.kind == ParseError {
      var k'' := k'.(dead := k.dead + [r.model.value]);
      assert WorkerOk(c, k'');
      hide WorkerOk;
      FlushKeeps(c, k'');
    }
  }

  lemma DecideKeeps<M>(c: Setup, k: Worker<M>, timeUp: bool)
    requires Usable(c) && WorkerOk(c, k) && k.phase.Deciding?
    ensures var k' := k.(phase := Idle);
            WorkerOk(c, if NeedsFlush(c, k', timeUp) then Flushed(k') else k')
  {
    F.WithinBounds(c.sizes, |k.queue|, c.channelSize);
    hide Carried, F.ComputeFlushThreshold;
    FlushKeeps(c, k);
  }

  lemma SendKeeps<M>(c: Setup, k: Worker<M>, line: nat)
    requires WorkerOk(c, k) && |k.queue| < c.channelSize && !k.phase.Finished?
    ensures WorkerOk(c, k.(queue := k.queue + [line]))
    ensures Track(k.(queue := k.queue + [line])) == Track(k) + [line]
  {
    hide Carried;
  }
}
