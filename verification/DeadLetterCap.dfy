/** When the cap on dead-letter batches holds (internal/process/pipeline/worker.go:99-121): a parse error flushes a
    full batch, an identity error does not.
 */
module DeadLetterCap {
  import opened Wrappers
  import opened Processing
  import opened Uploaders
  import opened PipelineSteps
  import opened PipelineRuns

  predicate BulksFit<M>(c: Setup, bulks: seq<Bulk<M>>) {
    forall i :: 0 <= i < |bulks| && bulks[i].target == DeadLetters ==> |bulks[i].models| <= c.deadCap
  }

  /** Neither what waits nor any dead-letter bulk write is over the cap. */
  predicate WorkerFits<M>(c: Setup, k: Worker<M>) {
    |k.dead| <= c.deadCap && BulksFit(c, k.bulks)
  }

  predicate Fits<M>(c: Setup, s: State<M>) {
    forall w :: 0 <= w < |s.workers| ==> WorkerFits(c, s.workers[w])
  }

  predicate IsError(k: Kind) {
    k == ParseError || k == IdentityError
  }

  /** A line ends in an error on a worker whose dead-letter batch is already full. */
  predicate Overfills<M>(c: Setup, s: State<M>, step: Step<M>) {
    step.Classify? && step.w < |s.workers| && IsError(KindOf(step.fate)) && |s.workers[step.w].dead| >= c.deadCap
  }

  // --- One worker ---------------------------------------------------------------------------

  lemma BulksFitSnoc<M>(c: Setup, bulks: seq<Bulk<M>>, b: Bulk<M>)
    ensures BulksFit(c, bulks + [b]) <==> BulksFit(c, bulks) && (b.target == DeadLetters ==> |b.models| <= c.deadCap)
  {
    var more := bulks + [b];
    assert more[|bulks|] == b && forall i :: 0 <= i < |bulks| ==> more[i] == bulks[i];
  }

  lemma FlushOneFits<M>(c: Setup, bulks: seq<Bulk<M>>, t: Target, models: seq<M>)
    requires c.deadCap >= 1
    ensures BulksFit(c, FlushOne(bulks, t, models)) <==>
            BulksFit(c, bulks) && (t == DeadLetters ==> |models| <= c.deadCap)
  {
    hide BulksFit;
    if models != [] {
      BulksFitSnoc(c, bulks, Bulk(t, models));
    }
  }

  /** A flush sends what waits: it keeps the cap exactly if the cap held before. */
  lemma FlushFitsIff<M>(c: Setup, k: Worker<M>)
    requires c.deadCap >= 1
    ensures WorkerFits(c, Flushed(k)) <==> WorkerFits(c, k)
  {
    hide BulksFit, FlushOne;
    var one := FlushOne(k.bulks, Users, k.user);
    var two := FlushOne(one, Events, k.event);
    FlushOneFits(c, k.bulks, Users, k.user);
    FlushOneFits(c, one, Events, k.event);
    FlushOneFits(c, two, DeadLetters, k.dead);
  }

  lemma ClassifyFitsIff<M>(c: Setup, k: Worker<M>, r: LineResult<M>, timeUp: bool)
    requires c.deadCap >= 1 && k.phase.Holding? && (r.kind != Filtered ==> r.model.Some?)
    ensures WorkerFits(c, Classified(c, k, r, timeUp)) <==>
            WorkerFits(c, k) && !(IsError(r.kind) && |k.dead| >= c.deadCap)
  {
    hide BulksFit, Flushed;
    if r.kind == ParseError {
      var k' := k.(phase := Idle, seen := k.seen + [k.phase.line], results := k.results + [r],
                   dead := k.dead + [r.model.value]);
      FlushFitsIff(c, k');
    }
  }

  // --- Every step and every run ------------------------------------------------------------------

  lemma OneWorkerFits<M>(c: Setup, s: State<M>, s': State<M>, w: nat)
    requires w < |s.workers| == |s'.workers| && s'.workers == s.workers[w := s'.workers[w]]
    ensures Fits(c, s') ==> WorkerFits(c, s'.workers[w])
    ensures WorkerFits(c, s'.workers[w]) == WorkerFits(c, s.workers[w]) ==> (Fits(c, s') <==> Fits(c, s))
    ensures Fits(c, s) && WorkerFits(c, s'.workers[w]) ==> Fits(c, s')
    ensures Fits(c, s') && WorkerFits(c, s.workers[w]) ==> Fits(c, s)
    ensures Fits(c, s) ==> WorkerFits(c, s.workers[w])
  {
    hide WorkerFits;
    forall v | 0 <= v < |s.workers| && v != w ensures s'.workers[v] == s.workers[v] {
    }
  }

  /** A step of any schedule keeps the cap if and only if it held and no error arrived on a full batch. */
  lemma StepFitsIff<M>(c: Setup, s: State<M>, step: Step<M>)
    requires Usable(c) && c.deadCap >= 1 && |s.workers| == c.workers && Enabled(c, s, step)
    ensures Fits(c, Next(c, s, step)) <==> Fits(c, s) && !Overfills(c, s, step)
    ensures |Next(c, s, step).workers| == c.workers
  {
    hide WorkerFits, Fits, KindOf, ResultOf, Classified, Flushed, Tally;
    var s' := Next(c, s, step);
    if step.NextLine? || step.Close? {
      SameWorkersFit(c, s, s');
    } else if step.Try? || step.Unblock? {
      var w := Candidate(c, Current(s), if step.Try? then s.dispatcher.offset else 0);
      if HasRoom(c, s, w) {
        QueueFits(c, s.workers[w], s'.workers[w]);
        OneWorkerFits(c, s, s', w);
      } else {
        SameWorkersFit(c, s, s');
      }
    } else {
      var w := step.w;
      var k := s.workers[w];
      OneWorkerFits(c, s, s', w);
      match step {
        case Classify(_, f, timeUp) =>
          ResultKind(f);
          ClassifyFitsIff(c, k, ResultOf(f), timeUp);
        case Receive(_) =>
          QueueFits(c, k, s'.workers[w]);
        case _ =>
          FlushFitsIff(c, k);
          QueueFits(c, k, k.(phase := Idle));
          FlushFitsIff(c, k.(phase := Idle));
          QueueFits(c, Flushed(k), Flushed(k).(phase := Finished));
      }
    }
  }

  lemma SameWorkersFit<M>(c: Setup, s: State<M>, s': State<M>)
    requires s'.workers == s.workers
    ensures Fits(c, s') <==> Fits(c, s)
  {
  }

  lemma QueueFits<M>(c: Setup, k: Worker<M>, k': Worker<M>)
    requires k' == k.(queue := k'.queue, phase := k'.phase)
    ensures WorkerFits(c, k') <==> WorkerFits(c, k)
  {
  }

  /** No error arrives on a full batch anywhere in the run. */
  predicate NeverOverfills<M>(c: Setup, s: State<M>, steps: seq<Step<M>>)
    requires Usable(c) && After(c, s, steps).Some?
    decreases |steps|
  {
    steps != [] ==> !Overfills(c, s, steps[0]) && NeverOverfills(c, Next(c, s, steps[0]), steps[1..])
  }

  lemma {:induction false} RunFitsIff<M>(c: Setup, s: State<M>, steps: seq<Step<M>>)
    requires Usable(c) && c.deadCap >= 1 && After(c, s, steps).Some?
    ensures Fits(c, After(c, s, steps).value) <==> Fits(c, s) && NeverOverfills(c, s, steps)
    decreases |steps|
  {
    hide Fits, Overfills, Next, Enabled;
    if steps != [] {
      StepFitsIff(c, s, steps[0]);
      RunFitsIff(c, Next(c, s, steps[0]), steps[1..]);
    }
  }

  /** From the start: no dead-letter batch, waiting or written, is ever over the cap if and only if no parse or
      identity error arrives on a full batch.  Only an identity error can leave one full. */
  lemma CapHoldsIff<M>(c: Setup, steps: seq<Step<M>>)
    requires Usable(c) && c.deadCap >= 1 && After(c, Init(c), steps).Some?
    ensures Fits(c, After(c, Init(c), steps).value) <==> NeverOverfills(c, Init(c), steps)
  {
    hide After, NeverOverfills;
    RunFitsIff(c, Init(c), steps);
    forall w | 0 <= w < c.workers ensures Init<M>(c).workers[w] == EmptyWorker<M>() {
    }
  }

  /** A batch below the cap becomes full, rather than flushed, exactly by an identity error. */
  lemma FullIff<M>(c: Setup, k: Worker<M>, r: LineResult<M>, timeUp: bool)
    requires c.deadCap >= 1 && |k.dead| < c.deadCap
    requires k.phase.Holding? && (r.kind != Filtered ==> r.model.Some?)
    ensures |Classified(c, k, r, timeUp).dead| >= c.deadCap <==> r.kind == IdentityError && |k.dead| == c.deadCap - 1
  {
  }

  /** A waiting batch within the cap outgrows it exactly when it is full and an identity error comes; a parse error
      on a full batch sends it, one over the cap, at once. */
  lemma OverfullIff<M>(c: Setup, k: Worker<M>, r: LineResult<M>, timeUp: bool)
    requires c.deadCap >= 1 && |k.dead| <= c.deadCap
    requires k.phase.Holding? && (r.kind != Filtered ==> r.model.Some?)
    ensures |Classified(c, k, r, timeUp).dead| > c.deadCap <==> r.kind == IdentityError && |k.dead| == c.deadCap
  {
  }

  // --- A run that exceeds the cap ------------------------------------------------------------------

  lemma {:induction false} AfterSplit<M>(c: Setup, s: State<M>, a: seq<Step<M>>, b: seq<Step<M>>)
    requires Usable(c) && After(c, s, a).Some?
    ensures After(c, s, a + b) == After(c, After(c, s, a).value, b)
    decreases |a|
  {
    hide Next, Enabled;
    if a == [] {
      assert a + b == b;
    } else {
      assert (a + b)[1..] == a[1..] + b;
      AfterSplit(c, Next(c, s, a[0]), a[1..], b);
    }
  }

  /** One worker, waiting, with n dead letters and nothing written. */
  predicate Piled<M>(c: Setup, s: State<M>, n: nat) {
    && s.dispatcher.Receiving? && |s.homes| == n && |s.workers| == 1 == c.workers
    && s.workers[0].phase.Idle? && s.workers[0].queue == [] && |s.workers[0].dead| == n
    && s.workers[0].user == [] && s.workers[0].event == [] && s.workers[0].bulks == []
  }

  // One line taken, sent, received and failed.
  function OneError<M>(f: Fate<M>): seq<Step<M>> {
    [NextLine, Try, Receive(0), Classify(0, f, false)]
  }

  lemma OneErrorPiles<M>(c: Setup, s: State<M>, n: nat, f: Fate<M>)
    requires Usable(c) && Piled(c, s, n) && n < |c.input| && KindOf(f) == IdentityError
    ensures After(c, s, OneError(f)).Some? && Piled(c, After(c, s, OneError(f)).value, n + 1)
  {
    hide KindOf, ResultOf, Tally;
    ResultKind(f);
    var steps := OneError(f);
    var s1 := Next(c, s, steps[0]);
    var s2 := Next(c, s1, steps[1]);
    assert Candidate(c, n, 0) == 0;
    assert s2.workers[0].queue == [n];
    var s3 := Next(c, s2, steps[2]);
    assert s3.workers[0].phase == Holding(n) && s3.workers[0].queue == [];
    var s4 := Next(c, s3, steps[3]);
    FourSteps(c, s, steps[0], steps[1], steps[2], steps[3]);
  }

  lemma FourSteps<M>(c: Setup, s: State<M>, e1: Step<M>, e2: Step<M>, e3: Step<M>, e4: Step<M>)
    requires Usable(c) && |s.workers| == c.workers && Enabled(c, s, e1)
    requires var s1 := Next(c, s, e1); |s1.workers| == c.workers && Enabled(c, s1, e2)
    requires var s2 := Next(c, Next(c, s, e1), e2); |s2.workers| == c.workers && Enabled(c, s2, e3)
    requires var s3 := Next(c, Next(c, Next(c, s, e1), e2), e3); |s3.workers| == c.workers && Enabled(c, s3, e4)
    ensures After(c, s, [e1, e2, e3, e4]) == Some(Next(c, Next(c, Next(c, Next(c, s, e1), e2), e3), e4))
  {
    hide Next, Enabled;
    var s1 := Next(c, s, e1);
    var s2 := Next(c, s1, e2);
    var s3 := Next(c, s2, e3);
    assert [e1, e2, e3, e4][1..] == [e2, e3, e4] && [e2, e3, e4][1..] == [e3, e4];
    assert [e3, e4][1..] == [e4] && [e4][1..] == [];
    assert After(c, s3, [e4]) == Some(Next(c, s3, e4));
    assert After(c, s2, [e3, e4]) == After(c, s3, [e4]);
    assert After(c, s1, [e2, e3, e4]) == After(c, s2, [e3, e4]);
  }

  lemma {:induction false} ErrorsPile<M>(c: Setup, n: nat, f: Fate<M>) returns (steps: seq<Step<M>>)
    requires Usable(c) && c.workers == 1 && n <= |c.input| && KindOf(f) == IdentityError
    ensures After(c, Init(c), steps).Some? && Piled(c, After(c, Init(c), steps).value, n)
    decreases n
  {
    if n == 0 {
      steps := [];
      assert Init<M>(c).workers[0] == EmptyWorker<M>();
    } else {
      var before := ErrorsPile(c, n - 1, f);
      hide After, Piled;
      var s := After(c, Init(c), before).value;
      OneErrorPiles(c, s, n - 1, f);
      AfterSplit(c, Init(c), before, OneError(f));
      steps := before + OneError(f);
    }
  }

  /** With one worker and more input lines than the cap, a run of identity errors piles up a batch over the cap, and
      the next tick sends it in one bulk write. */
  lemma CapExceeded<M>(c: Setup, f: Fate<M>) returns (steps: seq<Step<M>>)
    requires Usable(c) && c.workers == 1 && 1 <= c.deadCap < |c.input| && KindOf(f) == IdentityError
    ensures After(c, Init(c), steps).Some?
    ensures var s := After(c, Init(c), steps).value;
            && |s.workers| == 1 && |s.workers[0].bulks| == 1 && s.workers[0].bulks[0].target == DeadLetters
            && |s.workers[0].bulks[0].models| == c.deadCap + 1
  {
    var before := ErrorsPile(c, c.deadCap + 1, f);
    var s := After(c, Init(c), before).value;
    var tick: seq<Step<M>> := [Tick(0)];
    AfterSplit(c, Init(c), before, tick);
    steps := before + tick;
    assert tick[1..] == [] && tick[0] == Tick(0);
    assert After(c, s, tick) == Some(Next(c, s, Tick(0)));
  }
}
