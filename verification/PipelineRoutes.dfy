/** Which worker a line goes to (internal/process/pipeline/dispatch.go:21-49): the one its routing key names,
    unless that one's channel is full when it is tried.

    `Probes` records, for every line, which channels were full at each try of the dispatcher for it.
 */
module PipelineRoutes {
  import opened Wrappers
  import opened Processing
  import opened PipelineSteps
  import opened PipelineWorker

  type Probes = map<nat, seq<set<nat>>>

  /** The worker a line's routing key names. */
  function Home(c: Setup, line: nat): nat
    requires line < |c.input| && c.workers >= 1
    ensures Home(c, line) < c.workers
  {
    c.route(c.input[line]) % c.workers
  }

  function FullOnes<M>(c: Setup, s: State<M>): set<nat> {
    set w | 0 <= w < |s.workers| && |s.workers[w].queue| >= c.channelSize
  }

  function Of(ps: Probes, line: nat): seq<set<nat>> {
    if line in ps then ps[line] else []
  }

  function Probed<M>(c: Setup, s: State<M>, step: Step<M>, ps: Probes): Probes {
    if step.Try? then ps[Current(s) := Of(ps, Current(s)) + [FullOnes(c, s)]] else ps
  }

  function RunProbes<M>(c: Setup, s: State<M>, steps: seq<Step<M>>, ps: Probes): Probes
    requires Usable(c) && After(c, s, steps).Some?
    decreases |steps|
  {
    if steps == [] then ps else RunProbes(c, Next(c, s, steps[0]), steps[1..], Probed(c, s, steps[0], ps))
  }

  /** The first k workers round the ring from `home` were full, each when it was tried. */
  predicate NearerFull(n: nat, home: nat, tries: seq<set<nat>>, k: nat)
    requires home < n && k <= |tries|
  {
    forall v :: 0 <= v < n && Distance(home, v, n) < k ==> v in tries[Distance(home, v, n)]
  }

  /** A line was sent to w: by the try at w's distance from its home, which found room after the nearer ones had been
      found full, or, after all had been found full, by waiting for its home. */
  predicate SentRight(n: nat, home: nat, tries: seq<set<nat>>, w: nat)
    requires home < n && w < n
  {
    var d := Distance(home, w, n);
    || (|tries| == d + 1 && w !in tries[d] && NearerFull(n, home, tries, d))
    || (w == home && |tries| == n && NearerFull(n, home, tries, n))
  }

  predicate DispatcherKnows<M>(c: Setup, s: State<M>, ps: Probes)
    requires c.workers >= 1
  {
    var tries := Of(ps, Current(s));
    match s.dispatcher
    case Trying(k) =>
      Current(s) < |c.input| && k < c.workers && |tries| == k && NearerFull(c.workers, Home(c, Current(s)), tries, k)
    case Blocked =>
      Current(s) < |c.input| && |tries| == c.workers
      && NearerFull(c.workers, Home(c, Current(s)), tries, c.workers)
    case _ => Current(s) <= |c.input| && tries == []
  }

  predicate Routed<M>(c: Setup, s: State<M>, ps: Probes)
    requires c.workers >= 1
  {
    && |s.workers| == c.workers && |s.homes| <= |c.input|
    && (forall line :: line in ps ==> line <= Current(s))
    && DispatcherKnows(c, s, ps)
    && (forall i :: 0 <= i < |s.homes| ==>
          s.homes[i] < c.workers && SentRight(c.workers, Home(c, i), Of(ps, i), s.homes[i]))
  }

  lemma AtDistance(n: nat, home: nat, k: nat, v: nat)
    requires home < n && k < n && v < n
    ensures Distance(home, v, n) == k <==> v == (home + k) % n
  {
    DistanceIs(home, k, n);
  }

  // One more worker, the next round the ring, was full.
  lemma OneMoreFull(n: nat, home: nat, tries: seq<set<nat>>, k: nat, full: set<nat>)
    requires home < n && k < n && |tries| == k && NearerFull(n, home, tries, k) && (home + k) % n in full
    ensures NearerFull(n, home, tries + [full], k + 1)
  {
    forall v | 0 <= v < n && Distance(home, v, n) < k + 1 ensures v in (tries + [full])[Distance(home, v, n)] {
      AtDistance(n, home, k, v);
    }
  }

  lemma SameFull(n: nat, home: nat, tries: seq<set<nat>>, k: nat, full: set<nat>)
    requires home < n && |tries| == k && NearerFull(n, home, tries, k)
    ensures NearerFull(n, home, tries + [full], k)
  {
    assert forall j :: 0 <= j < k ==> (tries + [full])[j] == tries[j];
  }

  lemma TryRoutes<M>(c: Setup, s: State<M>, ps: Probes)
    requires Usable(c) && Routed(c, s, ps) && Enabled(c, s, Try)
    ensures Routed(c, Next(c, s, Try), Probed(c, s, Try, ps))
  {
    var line, k := Current(s), s.dispatcher.offset;
    var home := Home(c, line);
    var w := Candidate(c, line, k);
    var tries, full := Of(ps, line), FullOnes(c, s);
    var ps' := Probed(c, s, Try, ps);
    assert Of(ps', line) == tries + [full];
    assert forall i :: 0 <= i < |s.homes| ==> Of(ps', i) == Of(ps, i);
    AtDistance(c.workers, home, k, w);
    if HasRoom(c, s, w) {
      SameFull(c.workers, home, tries, k, full);
      assert (tries + [full])[k] == full;
      assert Of(ps', line + 1) == [];
      hide NearerFull, Distance, FullOnes;
    } else {
      OneMoreFull(c.workers, home, tries, k, full);
      hide NearerFull, Distance, FullOnes;
    }
  }

  /** Every step of every schedule keeps it. */
  lemma StepRoutes<M>(c: Setup, s: State<M>, step: Step<M>, ps: Probes)
    requires Usable(c) && Routed(c, s, ps) && Enabled(c, s, step)
    ensures Routed(c, Next(c, s, step), Probed(c, s, step, ps))
  {
    hide NearerFull, Distance, Flushed, Classified, ResultOf, Tally, NeedsFlush;
    if step.Try? {
      TryRoutes(c, s, ps);
    } else if step.Unblock? {
      var line := Current(s);
      assert Candidate(c, line, 0) == Home(c, line) by { HomeFirst(c, line); }
      assert Of(ps, line + 1) == [];
    } else if step.NextLine? {
      assert NearerFull(c.workers, Home(c, Current(s)), [], 0) by { NoneNearer(c.workers, Home(c, Current(s))); }
    }
  }

  lemma HomeFirst(c: Setup, line: nat)
    requires line < |c.input| && c.workers >= 1
    ensures Candidate(c, line, 0) == Home(c, line)
  {
  }

  lemma NoneNearer(n: nat, home: nat)
    requires home < n
    ensures NearerFull(n, home, [], 0)
  {
  }

  lemma {:induction false} RunRoutes<M>(c: Setup, s: State<M>, steps: seq<Step<M>>, ps: Probes)
    requires Usable(c) && Routed(c, s, ps) && After(c, s, steps).Some?
    ensures Routed(c, After(c, s, steps).value, RunProbes(c, s, steps, ps))
    decreases |steps|
  {
    hide Routed, Next, Enabled, Probed;
    if steps != [] {
      StepRoutes(c, s, steps[0], ps);
      RunRoutes(c, Next(c, s, steps[0]), steps[1..], Probed(c, s, steps[0], ps));
    }
  }

  lemma StartsRouted<M>(c: Setup)
    requires Usable(c)
    ensures Routed(c, Init<M>(c), map[])
  {
  }

  /** In every schedule from the start every line went to the worker that its routing key names, if that one's
      channel had room at the first try; else to the nearest worker round the ring that had room when tried; and if
      none had, to the one its key names again. */
  lemma LinesGoHome<M>(c: Setup, steps: seq<Step<M>>, i: nat)
    requires Usable(c) && After(c, Init(c), steps).Some?
    requires i < |After(c, Init(c), steps).value.homes|
    ensures i < |c.input|
    ensures var w, tries := After(c, Init(c), steps).value.homes[i], Of(RunProbes(c, Init(c), steps, map[]), i);
            var home := c.route(c.input[i]) % c.workers;
            && w < c.workers && SentRight(c.workers, home, tries, w)
            && tries != [] && (home !in tries[0] ==> w == home)
  {
    StartsRouted<M>(c);
    RunRoutes(c, Init(c), steps, map[]);
    hide After, RunProbes, Init;
    var s, ps := After(c, Init(c), steps).value, RunProbes(c, Init(c), steps, map[]);
    FirstTry(c.workers, Home(c, i), Of(ps, i), s.homes[i]);
  }

  lemma FirstTry(n: nat, home: nat, tries: seq<set<nat>>, w: nat)
    requires home < n && w < n && SentRight(n, home, tries, w)
    ensures tries != [] && (home !in tries[0] ==> w == home)
  {
    assert Distance(home, home, n) == 0;
    if w != home {
      assert Distance(home, w, n) > 0;
    }
  }

  /** So lines of one routing key for which no first try found a full channel go to one worker, and that is the one
      the key names. */
  lemma SameKeySameWorker<M>(c: Setup, steps: seq<Step<M>>, i: nat, j: nat)
    requires Usable(c) && After(c, Init(c), steps).Some?
    requires i < |After(c, Init(c), steps).value.homes| && j < |After(c, Init(c), steps).value.homes|
    requires i < |c.input| && j < |c.input| && c.route(c.input[i]) == c.route(c.input[j])
    requires var ps := RunProbes(c, Init(c), steps, map[]);
             forall l :: l == i || l == j ==>
               Of(ps, l) != [] ==> c.route(c.input[i]) % c.workers !in Of(ps, l)[0]
    ensures var homes := After(c, Init(c), steps).value.homes;
            homes[i] == homes[j] == c.route(c.input[i]) % c.workers
  {
    hide After, RunProbes, Init, SentRight, Distance;
    LinesGoHome(c, steps, i);
    LinesGoHome(c, steps, j);
  }
}
