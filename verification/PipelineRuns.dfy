/** What every schedule of the dispatcher, the workers and the flush ticks keeps, and where it ends
    (internal/process/pipeline/dispatch.go:13-50, worker.go:60-168). */
module PipelineRuns {
  import opened Wrappers
  import opened Processing
  import opened Uploaders
  import opened PipelineSteps
  import F = FlushThreshold

  // --- Sums over the workers -----------------------------------------------------------------

  function Total<M>(ws: seq<Worker<M>>, g: Worker<M> -> nat): nat {
    if ws == [] then 0 else Total(ws[..|ws| - 1], g) + g(ws[|ws| - 1])
  }

  lemma {:induction false} TotalUpdate<M>(ws: seq<Worker<M>>, w: nat, k: Worker<M>, g: Worker<M> -> nat)
    requires w < |ws|
    ensures Total(ws[w := k], g) + g(ws[w]) == Total(ws, g) + g(k)
    decreases |ws|
  {
    var n := |ws| - 1;
    if w < n {
      assert ws[w := k][..n] == ws[..n][w := k];
      TotalUpdate(ws[..n], w, k, g);
    } else {
      assert ws[w := k][..n] == ws[..n];
    }
  }

  lemma {:induction false} TotalSame<M>(ws: seq<Worker<M>>, g: Worker<M> -> nat, h: Worker<M> -> nat)
    requires forall w :: 0 <= w < |ws| ==> g(ws[w]) == h(ws[w])
    ensures Total(ws, g) == Total(ws, h)
    decreases |ws|
  {
    if ws != [] {
      TotalSame(ws[..|ws| - 1], g, h);
    }
  }

  /** The results of one kind. */
  function CountKind<M>(rs: seq<LineResult<M>>, kind: Kind): nat {
    if rs == [] then 0 else CountKind(rs[..|rs| - 1], kind) + One(rs[|rs| - 1].kind == kind)
  }

  function ByKind<M>(kind: Kind): Worker<M> -> nat {
    (k: Worker<M>) => CountKind(k.results, kind)
  }

  function Unseen<M>(): Worker<M> -> nat {
    (k: Worker<M>) => |Held(k)| + |k.queue|
  }

  function Handed<M>(t: Target): Worker<M> -> nat {
    (k: Worker<M>) => |Sent(k.bulks, t)|
  }

  lemma CountSnoc<M>(rs: seq<LineResult<M>>, r: LineResult<M>, kind: Kind)
    ensures CountKind(rs + [r], kind) == CountKind(rs, kind) + One(r.kind == kind)
  {
    assert (rs + [r])[..|rs|] == rs;
  }

  // --- The invariant ----------------------------------------------------------------------------

  predicate DispatcherOk<M>(c: Setup, s: State<M>) {
    && Current(s) <= |c.input|
    && (s.dispatcher.Trying? || s.dispatcher.Blocked? ==> Current(s) < |c.input|)
    && (s.dispatcher.Trying? ==> s.dispatcher.offset < c.workers)
    && (s.dispatcher.Closed? ==> Current(s) == |c.input|)
    && (forall i :: 0 <= i < |s.homes| ==> s.homes[i] < c.workers)
    && (forall w :: 0 <= w < |s.workers| && s.workers[w].phase.Finished? ==> s.dispatcher.Closed?)
  }

  /** Every worker has been sent exactly its lines, in input order. */
  predicate TracksOk<M>(s: State<M>) {
    forall w :: 0 <= w < |s.workers| ==> Track(s.workers[w]) == SentTo(s.homes, w)
  }

  ghost predicate WorkersOk<M>(c: Setup, s: State<M>) {
    forall w :: 0 <= w < |s.workers| ==> WorkerOk(c, s.workers[w])
  }

  /** The lines of one category that panicked while their model was built. */
  function LateOf<M>(fs: seq<Fate<M>>, category: Category): nat {
    if fs == [] then 0
    else
      var f := fs[|fs| - 1];
      LateOf(fs[..|fs| - 1], category) + One(PanicsBuilding(f) && f.parse.value == Some(category))
  }

  lemma LateOfSnoc<M>(fs: seq<Fate<M>>, f: Fate<M>, category: Category)
    ensures LateOf(fs + [f], category) ==
            LateOf(fs, category) + One(PanicsBuilding(f) && f.parse.value == Some(category))
  {
    assert (fs + [f])[..|fs|] == fs;
  }

  /** The counters agree with the results of all workers; what was sent and not yet counted is still on its way. */
  predicate TalliesOk<M>(s: State<M>) {
    && s.stats.lines == |s.fates|
    && Settled(s.stats) == |s.fates| + LatePanics(s.fates)
    && |s.fates| + Total(s.workers, Unseen()) == |s.homes|
    && s.stats.userWrites == Total(s.workers, ByKind(User)) + LateOf(s.fates, UserRecord)
    && s.stats.eventWrites == Total(s.workers, ByKind(Event)) + LateOf(s.fates, EventRecord)
  }

  ghost predicate Inv<M>(c: Setup, s: State<M>) {
    && |s.workers| == c.workers
    && DispatcherOk(c, s)
    && TracksOk(s)
    && WorkersOk(c, s)
    && TalliesOk(s)
  }

  // --- Every step keeps it --------------------------------------------------------------------------

  /** A step of one worker that neither receives a line from the dispatcher nor counts one. */
  lemma WorkerStepKeeps<M>(c: Setup, s: State<M>, w: nat, k: Worker<M>)
    requires Inv(c, s) && w < c.workers
    requires WorkerOk(c, k) && Track(k) == Track(s.workers[w]) && k.results == s.workers[w].results
    requires |Held(k)| + |k.queue| == |Held(s.workers[w])| + |s.workers[w].queue|
    requires k.phase.Finished? ==> s.dispatcher.Closed?
    ensures Inv(c, SetWorker(s, w, k))
  {
    hide WorkerOk, Track, Held, SentTo;
    TotalUpdate(s.workers, w, k, Unseen());
    TotalUpdate(s.workers, w, k, ByKind(User));
    TotalUpdate(s.workers, w, k, ByKind(Event));
    hide Total, CountKind;
  }

  /** A fate moves the write counters by its kind, and once more if it panics late. */
  lemma TallyWrites<M>(c: Counts, f: Fate<M>)
    ensures Tally(c, f).userWrites ==
            c.userWrites + One(KindOf(f) == User) + One(PanicsBuilding(f) && f.parse.value == Some(UserRecord))
    ensures Tally(c, f).eventWrites ==
            c.eventWrites + One(KindOf(f) == Event) + One(PanicsBuilding(f) && f.parse.value == Some(EventRecord))
  {
    TallyCountsOnce(c, f);
    hide Tally;
    if PanicsBuilding(f) {
      assert KindOf(f) == ParseError;
      assert f.parse.value.value.UserRecord? || f.parse.value.value.EventRecord?;
    }
  }

  /** One more line is counted. */
  lemma CountedKeeps<M>(s: State<M>, w: nat, k: Worker<M>, f: Fate<M>)
    requires TalliesOk(s) && w < |s.workers| && k.results == s.workers[w].results + [ResultOf(f)]
    requires |Held(k)| + |k.queue| + 1 == |Held(s.workers[w])| + |s.workers[w].queue|
    ensures TalliesOk(SetWorker(s, w, k).(stats := Tally(s.stats, f), fates := s.fates + [f]))
  {
    hide Track, Held, Total, CountKind, Tally, PanicsBuilding, Settled, LatePanics, LateOf, KindOf;
    ResultKind(f);
    TotalUpdate(s.workers, w, k, Unseen());
    TotalUpdate(s.workers, w, k, ByKind(User));
    TotalUpdate(s.workers, w, k, ByKind(Event));
    CountSnoc(s.workers[w].results, ResultOf(f), User);
    CountSnoc(s.workers[w].results, ResultOf(f), Event);
    TallySettles(s.stats, f);
    TallyWrites(s.stats, f);
    LateSnoc(s.fates, f);
    LateOfSnoc(s.fates, f, UserRecord);
    LateOfSnoc(s.fates, f, EventRecord);
  }

  lemma ResultKind<M>(f: Fate<M>)
    ensures ResultOf(f).kind == KindOf(f) && (KindOf(f) != Filtered ==> ResultOf(f).model.Some?)
  {
  }

  lemma ClassifyStepKeeps<M>(c: Setup, s: State<M>, w: nat, f: Fate<M>, timeUp: bool)
    requires Usable(c) && Inv(c, s) && Enabled(c, s, Classify(w, f, timeUp))
    ensures Inv(c, Next(c, s, Classify(w, f, timeUp)))
  {
    hide WorkerOk, Classified, Track, SentTo, TalliesOk, Held, ResultOf, Tally, KindOf;
    var was := s.workers[w];
    ResultKind(f);
    var k := Classified(c, was, ResultOf(f), timeUp);
    assert WorkerOk(c, was);
    ClassifyKeeps(c, was, ResultOf(f), timeUp);
    ClassifyFrees(c, was, ResultOf(f), timeUp);
    CountedKeeps(s, w, k, f);
  }

  lemma ClassifyFrees<M>(c: Setup, k: Worker<M>, r: LineResult<M>, timeUp: bool)
    requires k.phase.Holding? && (r.kind != Filtered ==> r.model.Some?)
    ensures var k' := Classified(c, k, r, timeUp);
            |Held(k')| + |k'.queue| + 1 == |Held(k)| + |k.queue| && !k'.phase.Finished?
  {
    hide FlushOne;
  }

  /** The dispatcher's line goes into a channel with room. */
  lemma SendKeepsInv<M>(c: Setup, s: State<M>, w: nat)
    requires Usable(c) && Inv(c, s) && w < c.workers && HasRoom(c, s, w)
    requires Current(s) < |c.input| && !s.dispatcher.Closed?
    ensures Inv(c, Send(s, w))
  {
    hide WorkerOk, Track, TalliesOk, SentTo;
    var was, line := s.workers[w], Current(s);
    assert WorkerOk(c, was);
    SendKeeps(c, was, line);
    SentKeeps(s, w);
    var s' := Send(s, w);
    forall v | 0 <= v < |s'.workers| ensures Track(s'.workers[v]) == SentTo(s'.homes, v) {
      SentToSnoc(s.homes, w, v);
    }
  }

  lemma SentToSnoc(homes: seq<nat>, w: nat, v: nat)
    ensures SentTo(homes + [w], v) == if v == w then SentTo(homes, v) + [|homes|] else SentTo(homes, v)
  {
    assert (homes + [w])[..|homes|] == homes;
    assert SentTo(homes, v) + [] == SentTo(homes, v);
  }

  /** One more line is on its way. */
  lemma SentKeeps<M>(s: State<M>, w: nat)
    requires TalliesOk(s) && w < |s.workers|
    ensures TalliesOk(Send(s, w))
  {
    var was := s.workers[w];
    var k := was.(queue := was.queue + [Current(s)]);
    TotalUpdate(s.workers, w, k, Unseen());
    TotalUpdate(s.workers, w, k, ByKind(User));
    TotalUpdate(s.workers, w, k, ByKind(Event));
    hide Total, CountKind;
  }

  lemma StepKeepsInv<M>(c: Setup, s: State<M>, step: Step<M>)
    requires Usable(c) && Inv(c, s) && Enabled(c, s, step)
    ensures Inv(c, Next(c, s, step))
  {
    hide WorkerOk, Total, SentTo, TalliesOk;
    match step
    case NextLine =>
      TalliesStay(s, Next(c, s, step));
    case Close =>
      TalliesStay(s, Next(c, s, step));
    case Try =>
      var w := Candidate(c, Current(s), s.dispatcher.offset);
      if HasRoom(c, s, w) {
        SendKeepsInv(c, s, w);
      } else {
        TalliesStay(s, Next(c, s, step));
      }
    case Unblock =>
      SendKeepsInv(c, s, Candidate(c, Current(s), 0));
    case Classify(w, f, timeUp) =>
      hide Inv, Next, Enabled;
      ClassifyStepKeeps(c, s, w, f, timeUp);
    case _ =>
      WorkerStepInv(c, s, step);
  }

  lemma TalliesStay<M>(s: State<M>, s': State<M>)
    requires TalliesOk(s) && s'.workers == s.workers && s'.homes == s.homes
    requires s'.stats == s.stats && s'.fates == s.fates
    ensures TalliesOk(s')
  {
  }

  lemma WorkerStepInv<M>(c: Setup, s: State<M>, step: Step<M>)
    requires Usable(c) && Inv(c, s) && Enabled(c, s, step)
    requires step.Receive? || step.Decide? || step.Tick? || step.Finish?
    ensures Inv(c, Next(c, s, step))
  {
    var w := step.w;
    var k := s.workers[w];
    assert WorkerOk(c, k);
    var k' := Next(c, s, step).workers[w];
    assert Next(c, s, step) == SetWorker(s, w, k');
    match step {
      case Receive(_) =>
        ReceiveKeeps(c, k);
      case Decide(_, timeUp) =>
        DecideKeeps(c, k, timeUp);
      case _ =>
        FlushKeeps(c, k);
        FinishKeeps(c, k);
    }
    hide Inv, WorkerOk, Enabled, Next, NeedsFlush;
    WorkerStepKeeps(c, s, w, k');
  }

  lemma FinishKeeps<M>(c: Setup, k: Worker<M>)
    requires WorkerOk(c, Flushed(k)) && k.phase.Idle?
    ensures k.queue == [] ==> WorkerOk(c, Flushed(k).(phase := Finished))
  {
    hide Carried, FlushOne;
  }

  lemma InitInv<M>(c: Setup)
    requires Usable(c)
    ensures Inv(c, Init<M>(c))
  {
    hide WorkerOk, Track, TalliesOk;
    EmptyWorkerOk<M>(c);
    InitTallies<M>(c);
    var s := Init<M>(c);
    forall w | 0 <= w < |s.workers| ensures s.workers[w] == EmptyWorker<M>() {
    }
  }

  lemma InitTallies<M>(c: Setup)
    ensures TalliesOk(Init<M>(c))
  {
    hide TalliesOk;
    NothingCounted(Init<M>(c));
  }

  lemma NothingCounted<M>(s: State<M>)
    requires s.stats == ZERO && s.fates == [] && s.homes == []
    requires forall w :: 0 <= w < |s.workers| ==> s.workers[w] == EmptyWorker<M>()
    ensures TalliesOk(s)
  {
    hide *;
    NoneLate(s.fates);
    EmptyTotals(s.workers);
    ZeroCounts(s.stats);
    TalliesFrom(s);
  }

  lemma ZeroCounts(c: Counts)
    requires c == ZERO
    ensures c.lines == 0 && c.userWrites == 0 && c.eventWrites == 0 && Settled(c) == 0
  {
  }

  lemma TalliesFrom<M>(s: State<M>)
    requires s.stats.lines == |s.fates|
    requires Settled(s.stats) == |s.fates| + LatePanics(s.fates)
    requires |s.fates| + Total(s.workers, Unseen()) == |s.homes|
    requires s.stats.userWrites == Total(s.workers, ByKind(User)) + LateOf(s.fates, UserRecord)
    requires s.stats.eventWrites == Total(s.workers, ByKind(Event)) + LateOf(s.fates, EventRecord)
    ensures TalliesOk(s)
  {
  }

  lemma EmptyTotals<M>(ws: seq<Worker<M>>)
    requires forall w :: 0 <= w < |ws| ==> ws[w] == EmptyWorker<M>()
    ensures Total(ws, Unseen()) == 0 && Total(ws, ByKind(User)) == 0 && Total(ws, ByKind(Event)) == 0
  {
    EmptyCounts<M>();
    hide Total, Unseen, ByKind;
    TotalZero(ws, Unseen());
    TotalZero(ws, ByKind(User));
    TotalZero(ws, ByKind(Event));
  }

  lemma EmptyCounts<M>()
    ensures var k := EmptyWorker<M>();
            Unseen<M>()(k) == 0 && ByKind<M>(User)(k) == 0 && ByKind<M>(Event)(k) == 0
  {
  }

  lemma NoneLate<M>(fs: seq<Fate<M>>)
    requires fs == []
    ensures LatePanics(fs) == 0 && LateOf(fs, UserRecord) == 0 && LateOf(fs, EventRecord) == 0
  {
  }

  lemma EmptyWorkerOk<M>(c: Setup)
    requires Usable(c)
    ensures WorkerOk(c, EmptyWorker<M>()) && Track(EmptyWorker<M>()) == []
  {
  }

  lemma {:induction false} TotalZero<M>(ws: seq<Worker<M>>, g: Worker<M> -> nat)
    requires forall w :: 0 <= w < |ws| ==> g(ws[w]) == 0
    ensures Total(ws, g) == 0
    decreases |ws|
  {
    if ws != [] {
      TotalZero(ws[..|ws| - 1], g);
    }
  }

  lemma {:induction false} RunKeepsInv<M>(c: Setup, s: State<M>, steps: seq<Step<M>>)
    requires Usable(c) && Inv(c, s) && After(c, s, steps).Some?
    ensures Inv(c, After(c, s, steps).value)
    decreases |steps|
  {
    if steps != [] {
      StepKeepsInv(c, s, steps[0]);
      assert |s.workers| == c.workers;
      hide Inv, Next, Enabled;
      RunKeepsInv(c, Next(c, s, steps[0]), steps[1..]);
    }
  }

  ghost predicate Reachable<M(!new)>(c: Setup, s: State<M>)
    requires Usable(c)
  {
    exists steps: seq<Step<M>> :: After(c, Init(c), steps) == Some(s)
  }

  lemma ReachableInv<M(!new)>(c: Setup, s: State<M>)
    requires Usable(c) && Reachable(c, s)
    ensures Inv(c, s)
  {
    hide Inv, After, Init;
    var steps: seq<Step<M>> :| After(c, Init(c), steps) == Some(s);
    InitInv<M>(c);
    RunKeepsInv(c, Init(c), steps);
  }

  // --- Where a line is -----------------------------------------------------------------------------

  datatype Place = InHand | Queued(w: nat, i: nat) | InWork(w: nat) | Done(w: nat, i: nat)

  predicate At<M>(s: State<M>, line: nat, p: Place) {
    match p
    case InHand => (s.dispatcher.Trying? || s.dispatcher.Blocked?) && line == Current(s)
    case Queued(w, i) => w < |s.workers| && i < |s.workers[w].queue| && s.workers[w].queue[i] == line
    case InWork(w) => w < |s.workers| && s.workers[w].phase == Holding(line)
    case Done(w, i) => w < |s.workers| && i < |s.workers[w].seen| && s.workers[w].seen[i] == line
  }

  /** The lines the dispatcher has taken from the input. */
  function Taken<M>(s: State<M>): nat {
    |s.homes| + One(s.dispatcher.Trying? || s.dispatcher.Blocked?)
  }

  predicate Ascending(ls: seq<nat>) {
    forall i, j :: 0 <= i < j < |ls| ==> ls[i] < ls[j]
  }

  predicate AllHomed(ls: seq<nat>, homes: seq<nat>, w: nat) {
    forall i :: 0 <= i < |ls| ==> ls[i] < |homes| && homes[ls[i]] == w
  }

  /** SentTo lists, in increasing order, exactly the lines whose home is that worker. */
  lemma {:induction false} SentToMeans(homes: seq<nat>, w: nat)
    ensures AllHomed(SentTo(homes, w), homes, w) && Ascending(SentTo(homes, w))
    ensures forall line :: 0 <= line < |homes| && homes[line] == w ==> line in SentTo(homes, w)
    decreases |homes|
  {
    if homes != [] {
      var n := |homes| - 1;
      var init := homes[..n];
      SentToMeans(init, w);
      var before, ls := SentTo(init, w), SentTo(homes, w);
      assert ls == before + (if homes[n] == w then [n] else []);
      hide SentTo;
      forall i | 0 <= i < |before| ensures before[i] < n && homes[before[i]] == w {
        assert init[before[i]] == homes[before[i]];
      }
      forall line | 0 <= line < |homes| && homes[line] == w ensures line in ls {
        assert line < n ==> init[line] == w;
      }
    }
  }

  // Which element of its worker's track a place is.
  function Index<M>(s: State<M>, p: Place): nat
    requires !p.InHand? && p.w < |s.workers|
  {
    var k := s.workers[p.w];
    match p
    case Queued(_, i) => |k.seen| + |Held(k)| + i
    case InWork(_) => |k.seen|
    case Done(_, i) => i
  }

  lemma PlaceInTrack<M>(s: State<M>, line: nat, p: Place)
    requires At(s, line, p) && !p.InHand?
    ensures Index(s, p) < |Track(s.workers[p.w])| && Track(s.workers[p.w])[Index(s, p)] == line
  {
  }

  lemma TrackHasPlace<M>(s: State<M>, w: nat, line: nat) returns (p: Place)
    requires w < |s.workers| && line in Track(s.workers[w])
    ensures At(s, line, p)
  {
    var k := s.workers[w];
    var i :| 0 <= i < |Track(k)| && Track(k)[i] == line;
    if i < |k.seen| {
      p := Done(w, i);
    } else if i < |k.seen| + |Held(k)| {
      p := InWork(w);
    } else {
      p := Queued(w, i - |k.seen| - |Held(k)|);
    }
  }

  /** Every line taken from the input is in exactly one place: the dispatcher's hand, one channel, one worker's
      hands, or done by one worker. */
  lemma ExactlyOnePlace<M(!new)>(c: Setup, s: State<M>, line: nat)
    requires Usable(c) && Reachable(c, s)
    ensures line < Taken(s) <==> exists p :: At(s, line, p)
    ensures forall p, q :: At(s, line, p) && At(s, line, q) ==> p == q
  {
    ReachableInv(c, s);
    hide Reachable, WorkersOk, TalliesOk, At, Track;
    if line < |s.homes| {
      SentToMeans(s.homes, s.homes[line]);
      var p := TrackHasPlace(s, s.homes[line], line);
    } else if line < Taken(s) {
      assert At(s, line, InHand) by { HandIsPlace(s, line); }
    }
    forall p | At(s, line, p) ensures line < Taken(s) && (!p.InHand? ==> line < |s.homes| && p.w == s.homes[line]) {
      PlaceIsTaken(s, line, p);
    }
    forall p, q | At(s, line, p) && At(s, line, q) ensures p == q {
      OnlyPlace(s, line, p, q);
    }
  }

  lemma HandIsPlace<M>(s: State<M>, line: nat)
    requires |s.homes| <= line < Taken(s)
    ensures At(s, line, InHand)
  {
  }

  lemma PlaceIsTaken<M>(s: State<M>, line: nat, p: Place)
    requires TracksOk(s) && At(s, line, p)
    ensures line < Taken(s)
    ensures if p.InHand? then line == |s.homes|
            else line < |s.homes| && p.w < |s.workers| && p.w == s.homes[line]
  {
    if !p.InHand? {
      PlaceInTrack(s, line, p);
      SentToMeans(s.homes, p.w);
      assert Track(s.workers[p.w]) == SentTo(s.homes, p.w);
      hide Track, Index;
    }
  }

  lemma OnlyPlace<M>(s: State<M>, line: nat, p: Place, q: Place)
    requires TracksOk(s) && At(s, line, p) && At(s, line, q)
    ensures p == q
  {
    PlaceIsTaken(s, line, p);
    PlaceIsTaken(s, line, q);
    if !p.InHand? && !q.InHand? {
      PlaceInTrack(s, line, p);
      PlaceInTrack(s, line, q);
      SentToMeans(s.homes, p.w);
      SameIndex(s, p, q);
    }
  }

  lemma SameIndex<M>(s: State<M>, p: Place, q: Place)
    requires !p.InHand? && !q.InHand? && p.w == q.w && p.w < |s.workers|
    requires Track(s.workers[p.w]) == SentTo(s.homes, p.w)
    requires Index(s, p) < |Track(s.workers[p.w])| && Index(s, q) < |Track(s.workers[q.w])|
    requires Track(s.workers[p.w])[Index(s, p)] == Track(s.workers[q.w])[Index(s, q)]
    requires p.InWork? || q.InWork? ==> s.workers[p.w].phase.Holding?
    requires p.Done? ==> p.i < |s.workers[p.w].seen|
    requires q.Done? ==> q.i < |s.workers[q.w].seen|
    ensures p == q
  {
    SentToMeans(s.homes, p.w);
    assert Index(s, p) == Index(s, q);
  }

  /** Each worker sees its lines in input order, and no channel holds more than its size. */
  lemma InOrder<M(!new)>(c: Setup, s: State<M>, w: nat)
    requires Usable(c) && Reachable(c, s) && w < c.workers
    ensures |s.workers| == c.workers && |s.workers[w].queue| <= c.channelSize
    ensures Ascending(s.workers[w].seen)
  {
    hide Reachable;
    ReachableInv(c, s);
    hide TalliesOk;
    assert WorkerOk(c, s.workers[w]);
    SentToMeans(s.homes, w);
    var seen := s.workers[w].seen;
    assert Track(s.workers[w]) == SentTo(s.homes, w);
    assert forall i :: 0 <= i < |seen| ==> SentTo(s.homes, w)[i] == seen[i];
    hide WorkersOk;
  }

  /** Every model is handed to BulkWrite once and in order, or is pending; no user or event bulk write carries
      more than the largest batch size. */
  lemma WrittenInOrder<M(!new)>(c: Setup, s: State<M>, w: nat, t: Target)
    requires Usable(c) && Reachable(c, s) && w < c.workers
    ensures |s.workers| == c.workers
    ensures var k := s.workers[w];
            && Sent(k.bulks, t) + Pick(t, k.user, k.event, k.dead) == Models(k.results, t)
            && |k.results| == |k.seen|
            && forall i :: 0 <= i < |k.bulks| ==>
                 k.bulks[i].models != [] && (k.bulks[i].target != DeadLetters ==> |k.bulks[i].models| <= c.sizes.max)
  {
    hide Reachable;
    ReachableInv(c, s);
    assert WorkerOk(c, s.workers[w]);
    hide TalliesOk, Sent, Models;
  }

  /** The setup that a configuration with defaults applied gives, whose largest batch size is MaxBatchSize. */
  lemma ConfigIsUsable(cfg: F.Config, input: seq<string>, route: string -> nat)
    requires cfg.Usable()
    ensures cfg.ChannelSize() >= 0 && cfg.batchWorkers >= 0 && cfg.deadLetterCap >= 0
    ensures var sizes := F.Sizes(cfg.MinBatchSize(), cfg.batchSize, cfg.MaxBatchSize());
            Usable(Setup(input, route, cfg.batchWorkers, cfg.ChannelSize(), sizes, cfg.deadLetterCap))
  {
    cfg.ThresholdInRange(0);
  }

  // --- Until all is done, something can move, and not forever ------------------------------------------------

  predicate AllDone<M>(s: State<M>) {
    s.dispatcher.Closed? && forall w :: 0 <= w < |s.workers| ==> s.workers[w].phase.Finished?
  }

  /** Deadlock freedom: some step other than a tick is enabled. */
  lemma SomethingMoves<M>(c: Setup, s: State<M>, f: Fate<M>) returns (step: Step<M>)
    requires Usable(c) && Inv(c, s) && !AllDone(s)
    ensures Enabled(c, s, step) && !step.Tick?
  {
    hide WorkersOk, TalliesOk, TracksOk;
    var w: nat := 0;
    if s.dispatcher.Receiving? {
      return if Current(s) < |c.input| then NextLine else Close;
    } else if s.dispatcher.Trying? {
      return Try;
    } else if s.dispatcher.Blocked? {
      w := Candidate(c, Current(s), 0);
      if HasRoom(c, s, w) {
        return Unblock;
      }
    } else {
      w :| 0 <= w < |s.workers| && !s.workers[w].phase.Finished?;
    }
    match s.workers[w].phase {
      case Idle => step := if s.workers[w].queue != [] then Receive(w) else Finish(w);
      case Holding(_) => step := Classify(w, f, false);
      case Deciding => step := Decide(w, false);
      case Finished => assert false;
    }
  }

  function DispatcherWork<M>(c: Setup, s: State<M>): int {
    (|c.input| - Current(s)) * (c.workers + 6)
    + match s.dispatcher
      case Receiving => c.workers + 3
      case Trying(offset) => c.workers + 2 - offset
      case Blocked => 2
      case Closed => 0
  }

  function PhaseWork(p: Phase): nat {
    match p
    case Holding(_) => 4
    case Deciding => 2
    case Idle => 1
    case Finished => 0
  }

  function Work<M>(): Worker<M> -> nat {
    (k: Worker<M>) => 4 * |k.queue| + PhaseWork(k.phase)
  }

  /** What is left to do. */
  function Measure<M>(c: Setup, s: State<M>): int {
    DispatcherWork(c, s) + Total(s.workers, Work())
  }

  /** Every step but a tick leaves less to do, and a tick no more. */
  lemma MeasureFalls<M>(c: Setup, s: State<M>, step: Step<M>)
    requires Usable(c) && Inv(c, s) && Enabled(c, s, step)
    ensures Measure(c, s) >= 0
    ensures if step.Tick? then Measure(c, Next(c, s, step)) == Measure(c, s)
            else Measure(c, Next(c, s, step)) < Measure(c, s)
  {
    hide WorkersOk, TalliesOk, TracksOk, Measure, Next;
    WorkLeft(c, s);
    if step.Receive? || step.Classify? || step.Decide? || step.Tick? || step.Finish? {
      WorkerLowers(c, s, step);
    } else {
      DispatcherLowers(c, s, step);
    }
  }

  lemma WorkLeft<M>(c: Setup, s: State<M>)
    requires DispatcherOk(c, s)
    ensures Measure(c, s) >= 0
  {
    assert (|c.input| - Current(s)) * (c.workers + 6) >= 0;
  }

  lemma DispatcherLowers<M>(c: Setup, s: State<M>, step: Step<M>)
    requires Usable(c) && |s.workers| == c.workers && Enabled(c, s, step) && DispatcherOk(c, s)
    requires step.NextLine? || step.Try? || step.Unblock? || step.Close?
    ensures Measure(c, Next(c, s, step)) < Measure(c, s)
  {
    hide Total, Send;
    if step.Try? || step.Unblock? {
      var w := Candidate(c, Current(s), if step.Try? then s.dispatcher.offset else 0);
      if HasRoom(c, s, w) {
        SendLowers(c, s, w);
      }
    }
  }

  lemma WorkerLowers<M>(c: Setup, s: State<M>, step: Step<M>)
    requires Usable(c) && |s.workers| == c.workers && Enabled(c, s, step)
    requires step.Receive? || step.Classify? || step.Decide? || step.Tick? || step.Finish?
    ensures if step.Tick? then Measure(c, Next(c, s, step)) == Measure(c, s)
            else Measure(c, Next(c, s, step)) < Measure(c, s)
  {
    hide Total, Threshold, FlushOne, Tally, ResultOf;
    var s', w := Next(c, s, step), step.w;
    TotalUpdate(s.workers, w, s'.workers[w], Work());
    assert s'.workers == s.workers[w := s'.workers[w]];
    assert DispatcherWork(c, s') == DispatcherWork(c, s);
  }

  lemma SendLowers<M>(c: Setup, s: State<M>, w: nat)
    requires |s.workers| == c.workers && w < c.workers && Current(s) < |c.input|
    requires s.dispatcher.Blocked? || (s.dispatcher.Trying? && s.dispatcher.offset < c.workers)
    ensures Measure(c, Send(s, w)) < Measure(c, s)
  {
    var k := s.workers[w];
    TotalUpdate(s.workers, w, k.(queue := k.queue + [Current(s)]), Work());
    hide Total;
    var left := |c.input| - Current(s);
    assert (left - 1) * (c.workers + 6) == left * (c.workers + 6) - (c.workers + 6);
  }

  function Moves<M>(steps: seq<Step<M>>): nat {
    if steps == [] then 0 else One(!steps[0].Tick?) + Moves(steps[1..])
  }

  /** No schedule has more steps, ticks aside, than there was work at the start. */
  lemma {:induction false} RunsAreBounded<M>(c: Setup, s: State<M>, steps: seq<Step<M>>)
    requires Usable(c) && Inv(c, s) && After(c, s, steps).Some?
    ensures Moves(steps) + Measure(c, After(c, s, steps).value) <= Measure(c, s)
    decreases |steps|
  {
    if steps != [] {
      var step := steps[0];
      StepKeepsInv(c, s, step);
      MeasureFalls(c, s, step);
      hide Inv, Next, Enabled, Measure;
      RunsAreBounded(c, Next(c, s, step), steps[1..]);
    }
  }

  // --- The end -------------------------------------------------------------------------------------------

  lemma {:induction false} ModelsCount<M>(rs: seq<LineResult<M>>)
    requires HasModels(rs)
    ensures |Models(rs, Users)| == CountKind(rs, User) && |Models(rs, Events)| == CountKind(rs, Event)
    decreases |rs|
  {
    if rs != [] {
      var init := rs[..|rs| - 1];
      assert forall i :: 0 <= i < |init| ==> init[i] == rs[i];
      ModelsCount(init);
    }
  }

  /** At the end every line has been done by the one worker it was sent to, every model has been handed to
      BulkWrite, and the counters balance: user writes + event writes + filtered + dead letters = lines read, and
      one more for each line that panicked while its model was built. */
  lemma EndsBalanced<M(!new)>(c: Setup, s: State<M>)
    requires Usable(c) && Reachable(c, s) && AllDone(s)
    ensures s.stats.lines == |s.fates| == |c.input|
    ensures Settled(s.stats) == |c.input| + LatePanics(s.fates)
    ensures s.stats.userWrites == Total(s.workers, Handed(Users)) + LateOf(s.fates, UserRecord)
    ensures s.stats.eventWrites == Total(s.workers, Handed(Events)) + LateOf(s.fates, EventRecord)
    ensures |s.homes| == |c.input|
    ensures forall w :: 0 <= w < |s.workers| ==>
              && s.workers[w].seen == SentTo(s.homes, w)
              && forall t :: Sent(s.workers[w].bulks, t) == Models(s.workers[w].results, t)
  {
    hide Reachable;
    ReachableInv(c, s);
    forall w | 0 <= w < |s.workers|
      ensures s.workers[w].seen == SentTo(s.homes, w)
      ensures Unseen()(s.workers[w]) == 0
      ensures forall t :: Sent(s.workers[w].bulks, t) == Models(s.workers[w].results, t)
      ensures Handed(Users)(s.workers[w]) == ByKind(User)(s.workers[w])
      ensures Handed(Events)(s.workers[w]) == ByKind(Event)(s.workers[w])
    {
      FinishedIsEmpty(c, s.workers[w]);
    }
    hide WorkerOk, TracksOk, DispatcherOk, Total;
    TotalZero(s.workers, Unseen());
    TotalSame(s.workers, Handed(Users), ByKind(User));
    TotalSame(s.workers, Handed(Events), ByKind(Event));
  }

  lemma FinishedIsEmpty<M>(c: Setup, k: Worker<M>)
    requires WorkerOk(c, k) && k.phase.Finished?
    ensures Track(k) == k.seen && |Held(k)| + |k.queue| == 0
    ensures forall t :: Sent(k.bulks, t) == Models(k.results, t)
    ensures |Sent(k.bulks, Users)| == CountKind(k.results, User)
    ensures |Sent(k.bulks, Events)| == CountKind(k.results, Event)
  {
    ModelsCount(k.results);
    hide Sent, Models, CountKind;
    forall t ensures Sent(k.bulks, t) == Models(k.results, t) {
      assert Sent(k.bulks, t) + Pick(t, k.user, k.event, k.dead) == Models(k.results, t);
    }
  }
}
