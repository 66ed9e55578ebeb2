/** Publishers, watchers and workers together (internal/cfgsync/cfgsync.go:113-148,
    internal/parser/parser.go:34-48, internal/process/core/processor.go:93-104,
    internal/role/daemon/report.go:130-162).

    Every pod watches the document, with any stored version delivered at any time, while its workers decide
    lines.  A worker loads the live filter twice for one line: once to see whether it is empty and, if it is
    not, again to apply it, and a swap may fall between the two loads.
 */
module ConfigRuns {
  import opened Wrappers
  import opened Filters
  import opened Watchers
  import opened Publish
  import P = PublishSteps
  import R = PublishRuns

  /** A decided line, with the version (0: the startup filter) the pod was at when it was decided. */
  datatype Decision<T> = Decision(rec: T, keep: bool, version: int)

  /** `loaded` holds the lines of workers that are between the two loads. */
  datatype Pod<T> = Pod(gated: bool, startup: Option<Filter>, watch: Watch, ingesting: bool,
                        loaded: map<nat, T>, decided: map<nat, seq<Decision<T>>>)

  datatype World<T> = World(pub: P.State, pods: map<nat, Pod<T>>)

  datatype Event<T> =
    | Publisher(step: P.Step)
    | Boot(pod: nat, gated: bool, startup: Option<Filter>)
    | Deliver(pod: nat, version: nat)
    | PassGate(pod: nat)
    | LoadEmpty(pod: nat, worker: nat, rec: T)
    | LoadKeep(pod: nat, worker: nat)

  predicate Enabled<T>(w: World<T>, e: Event<T>) {
    match e
    case Publisher(step) => P.Enabled(w.pub, step)
    case Boot(p, _, _) => p !in w.pods
    case Deliver(p, v) => p in w.pods && v < |w.pub.history|
    case PassGate(p) => p in w.pods && (w.pods[p].gated ==> w.pods[p].watch.ready)
    case LoadEmpty(p, k, _) => p in w.pods && w.pods[p].ingesting && k !in w.pods[p].loaded
    case LoadKeep(p, k) => p in w.pods && k in w.pods[p].loaded
  }

  function Decisions<T>(pod: Pod<T>, k: nat): seq<Decision<T>> {
    if k in pod.decided then pod.decided[k] else []
  }

  function Decide<T>(pod: Pod<T>, k: nat, rec: T, keep: bool): Pod<T> {
    pod.(loaded := pod.loaded - {k},
         decided := pod.decided[k := Decisions(pod, k) + [Decision(rec, keep, pod.watch.last)]])
  }

  function PodAfter<T>(pod: Pod<T>, w: World<T>, e: Event<T>, compiles: string -> bool,
                       eval: (string, T) -> Verdict): Pod<T>
    requires Enabled(w, e) && !e.Publisher? && !e.Boot? && e.pod in w.pods && w.pods[e.pod] == pod
  {
    match e
    case Deliver(_, v) => pod.(watch := Observed(pod.watch, w.pub.history[v], compiles))
    case PassGate(_) => pod.(ingesting := true)
    case LoadEmpty(_, k, rec) =>
      if IsEmpty(pod.watch.live) then Decide(pod, k, rec, true) else pod.(loaded := pod.loaded[k := rec])
    case LoadKeep(_, k) => Decide(pod, k, pod.loaded[k], Kept(pod.watch.live, pod.loaded[k], eval))
  }

  function Next<T>(w: World<T>, e: Event<T>, compiles: string -> bool, eval: (string, T) -> Verdict): World<T>
    requires Enabled(w, e)
  {
    match e
    case Publisher(step) => w.(pub := P.After1(w.pub, step, compiles))
    case Boot(p, gated, startup) =>
      w.(pods := w.pods[p := Pod(gated, startup, Watch(0, startup, false), false, map[], map[])])
    case _ => w.(pods := w.pods[e.pod := PodAfter(w.pods[e.pod], w, e, compiles, eval)])
  }

  function After<T>(w: World<T>, es: seq<Event<T>>, compiles: string -> bool,
                    eval: (string, T) -> Verdict): Option<World<T>>
    decreases |es|
  {
    if es == [] then Some(w)
    else if !Enabled(w, es[0]) then None
    else After(Next(w, es[0], compiles, eval), es[1..], compiles, eval)
  }

  // --- The invariant ------------------------------------------------------------------------------

  /** The filter of a version: the startup filter at 0, else the one the stored document carries. */
  function FilterAt<T>(pod: Pod<T>, history: seq<Option<Doc>>, v: int, compiles: string -> bool): Option<Filter> {
    if 1 <= v < |history| && history[v].Some? then FilterOf(history[v].value, compiles) else pod.startup
  }

  predicate WatchOk<T>(pod: Pod<T>, history: seq<Option<Doc>>, compiles: string -> bool) {
    && 0 <= pod.watch.last < |history|
    && pod.watch.live == FilterAt(pod, history, pod.watch.last, compiles)
    && (pod.watch.ready <==> pod.watch.last >= 1)
    && (pod.ingesting && pod.gated ==> pod.watch.ready)
    && (pod.loaded != map[] ==> pod.ingesting)
  }

  /** Each line was decided as its version would, by versions that never go back and, behind the gate, never by
      the startup filter. */
  predicate DecisionsOk<T>(pod: Pod<T>, ds: seq<Decision<T>>, history: seq<Option<Doc>>, compiles: string -> bool,
                           eval: (string, T) -> Verdict)
  {
    && (forall i :: 0 <= i < |ds| ==>
          && 0 <= ds[i].version <= pod.watch.last
          && (pod.gated ==> ds[i].version >= 1)
          && ds[i].keep == Kept(FilterAt(pod, history, ds[i].version, compiles), ds[i].rec, eval))
    && (forall i, j :: 0 <= i <= j < |ds| ==> ds[i].version <= ds[j].version)
  }

  predicate PodOk<T>(pod: Pod<T>, history: seq<Option<Doc>>, compiles: string -> bool, eval: (string, T) -> Verdict) {
    && WatchOk(pod, history, compiles)
    && forall k :: k in pod.decided ==> DecisionsOk(pod, pod.decided[k], history, compiles, eval)
  }

  predicate HistoryOk(history: seq<Option<Doc>>, compiles: string -> bool) {
    history != [] && history[0] == None && forall v :: 1 <= v < |history| ==> P.Good(history[v], v, compiles)
  }

  predicate Inv<T>(w: World<T>, compiles: string -> bool, eval: (string, T) -> Verdict) {
    && P.Inv(w.pub, compiles)
    && forall p :: p in w.pods ==> PodOk(w.pods[p], w.pub.history, compiles, eval)
  }

  lemma HistoryIsOk(s: P.State, compiles: string -> bool)
    requires P.Inv(s, compiles)
    ensures HistoryOk(s.history, compiles)
  {
    hide P.CallsOk, P.Good, P.Land, Gate;
  }

  // --- Every event keeps it -----------------------------------------------------------------------

  /** A delivery moves the watcher to the delivered version if it is newer, and never otherwise. */
  lemma DeliveryMeans(watch: Watch, history: seq<Option<Doc>>, v: nat, compiles: string -> bool)
    requires HistoryOk(history, compiles) && v < |history| && watch.last >= 0
    ensures Observed(watch, history[v], compiles) ==
            if v > watch.last then Watch(v, FilterOf(history[v].value, compiles), true) else watch
  {
    if v > 0 {
      assert P.Good(history[v], v, compiles);
    }
    hide FilterOf;
  }

  lemma DeliverKeeps<T>(pod: Pod<T>, history: seq<Option<Doc>>, v: nat, compiles: string -> bool,
                        eval: (string, T) -> Verdict)
    requires HistoryOk(history, compiles) && v < |history| && PodOk(pod, history, compiles, eval)
    ensures PodOk(pod.(watch := Observed(pod.watch, history[v], compiles)), history, compiles, eval)
  {
    DeliveryMeans(pod.watch, history, v, compiles);
    assert v > 0 ==> P.Good(history[v], v, compiles);
    hide FilterOf, Observed, Kept;
    var pod' := pod.(watch := Observed(pod.watch, history[v], compiles));
    forall k | k in pod'.decided ensures DecisionsOk(pod', pod'.decided[k], history, compiles, eval) {
      assert DecisionsOk(pod, pod.decided[k], history, compiles, eval);
    }
  }

  lemma DecideKeeps<T>(pod: Pod<T>, history: seq<Option<Doc>>, k: nat, rec: T, compiles: string -> bool,
                       eval: (string, T) -> Verdict)
    requires PodOk(pod, history, compiles, eval) && pod.ingesting
    ensures PodOk(Decide(pod, k, rec, Kept(pod.watch.live, rec, eval)), history, compiles, eval)
  {
    hide Kept, FilterAt, Decide, DecisionsOk;
    var pod' := Decide(pod, k, rec, Kept(pod.watch.live, rec, eval));
    DecideMeans(pod, k, rec, Kept(pod.watch.live, rec, eval));
    FilterAtIsTheSame(pod, pod', history, compiles);
    forall j | j in pod'.decided ensures DecisionsOk(pod', pod'.decided[j], history, compiles, eval) {
      SameWatchSameDecisions(pod, pod', Decisions(pod, j), history, compiles, eval);
      if j == k {
        OneMoreDecision(pod', Decisions(pod, k), rec, history, compiles, eval);
      }
    }
  }

  lemma DecideMeans<T>(pod: Pod<T>, k: nat, rec: T, keep: bool)
    ensures var pod' := Decide(pod, k, rec, keep);
            && pod' == pod.(loaded := pod'.loaded, decided := pod'.decided)
            && (pod.loaded == map[] ==> pod'.loaded == map[])
            && pod'.decided == pod.decided[k := Decisions(pod, k) + [Decision(rec, keep, pod.watch.last)]]
  {
  }

  lemma SameWatchSameDecisions<T>(pod: Pod<T>, pod': Pod<T>, ds: seq<Decision<T>>, history: seq<Option<Doc>>,
                                  compiles: string -> bool, eval: (string, T) -> Verdict)
    requires pod' == pod.(loaded := pod'.loaded, decided := pod'.decided)
    requires ds == [] || DecisionsOk(pod, ds, history, compiles, eval)
    ensures DecisionsOk(pod', ds, history, compiles, eval)
  {
    hide Kept, FilterAt;
    FilterAtIsTheSame(pod, pod', history, compiles);
  }

  lemma OneMoreDecision<T>(pod: Pod<T>, ds: seq<Decision<T>>, rec: T, history: seq<Option<Doc>>,
                           compiles: string -> bool, eval: (string, T) -> Verdict)
    requires WatchOk(pod, history, compiles) && pod.ingesting && DecisionsOk(pod, ds, history, compiles, eval)
    ensures DecisionsOk(pod, ds + [Decision(rec, Kept(pod.watch.live, rec, eval), pod.watch.last)],
                        history, compiles, eval)
  {
    hide Kept, FilterAt;
  }

  lemma FilterAtIsTheSame<T>(pod: Pod<T>, pod': Pod<T>, history: seq<Option<Doc>>, compiles: string -> bool)
    requires pod.startup == pod'.startup
    ensures forall v :: FilterAt(pod, history, v, compiles) == FilterAt(pod', history, v, compiles)
  {
  }

  lemma PodKeeps<T>(w: World<T>, e: Event<T>, compiles: string -> bool, eval: (string, T) -> Verdict)
    requires Enabled(w, e) && !e.Publisher? && !e.Boot? && e.pod in w.pods
    requires HistoryOk(w.pub.history, compiles) && PodOk(w.pods[e.pod], w.pub.history, compiles, eval)
    ensures PodOk(PodAfter(w.pods[e.pod], w, e, compiles, eval), w.pub.history, compiles, eval)
  {
    var pod, history := w.pods[e.pod], w.pub.history;
    hide HistoryOk, Observed, Decide, FilterAt, DecisionsOk;
    match e
    case Deliver(_, v) =>
      hide PodOk;
      DeliverKeeps(pod, history, v, compiles, eval);
    case PassGate(_) =>
      OthersFieldsKeep(pod, pod.(ingesting := true), history, compiles, eval);
    case LoadEmpty(_, k, rec) =>
      if IsEmpty(pod.watch.live) {
        EmptyKeepsAll(pod.watch.live, rec, eval);
        DecideKeeps(pod, history, k, rec, compiles, eval);
      } else {
        OthersFieldsKeep(pod, pod.(loaded := pod.loaded[k := rec]), history, compiles, eval);
      }
    case LoadKeep(_, k) =>
      DecideKeeps(pod, history, k, pod.loaded[k], compiles, eval);
  }

  /** Passing the gate and picking up a line touch no decision and no filter. */
  lemma OthersFieldsKeep<T>(pod: Pod<T>, pod': Pod<T>, history: seq<Option<Doc>>, compiles: string -> bool,
                            eval: (string, T) -> Verdict)
    requires PodOk(pod, history, compiles, eval)
    requires pod' == pod.(ingesting := pod'.ingesting, loaded := pod'.loaded)
    requires pod'.loaded != map[] ==> pod'.ingesting
    requires pod'.ingesting && pod'.gated ==> pod'.watch.ready
    ensures PodOk(pod', history, compiles, eval)
  {
    hide FilterAt, Kept;
    FilterAtIsTheSame(pod, pod', history, compiles);
    forall k | k in pod'.decided ensures DecisionsOk(pod', pod'.decided[k], history, compiles, eval) {
      assert DecisionsOk(pod, pod.decided[k], history, compiles, eval);
    }
  }

  /** Later versions change nothing for a pod. */
  lemma GrowthKeeps<T>(pod: Pod<T>, history: seq<Option<Doc>>, history': seq<Option<Doc>>, compiles: string -> bool,
                       eval: (string, T) -> Verdict)
    requires PodOk(pod, history, compiles, eval) && history <= history'
    ensures PodOk(pod, history', compiles, eval)
  {
    hide Kept, FilterOf;
    forall v | 0 <= v < |history| ensures FilterAt(pod, history, v, compiles) == FilterAt(pod, history', v, compiles) {
    }
    forall k | k in pod.decided ensures DecisionsOk(pod, pod.decided[k], history', compiles, eval) {
      assert DecisionsOk(pod, pod.decided[k], history, compiles, eval);
    }
  }

  lemma NextKeepsInv<T>(w: World<T>, e: Event<T>, compiles: string -> bool, eval: (string, T) -> Verdict)
    requires Inv(w, compiles, eval) && Enabled(w, e)
    ensures Inv(Next(w, e, compiles, eval), compiles, eval)
  {
    var w' := Next(w, e, compiles, eval);
    HistoryIsOk(w.pub, compiles);
    hide P.Inv, PodOk, HistoryOk, PodAfter;
    match e
    case Publisher(step) =>
      hide P.After1, P.Enabled;
      assert P.Enabled(w.pub, step);
      R.StepKeepsInv(w.pub, step, compiles);
      R.StepGrows(w.pub, step, compiles);
      forall p | p in w'.pods ensures PodOk(w'.pods[p], w'.pub.history, compiles, eval) {
        GrowthKeeps(w.pods[p], w.pub.history, w'.pub.history, compiles, eval);
      }
    case Boot(p, gated, startup) =>
      BootIsOk(w.pub.history, Pod(gated, startup, Watch(0, startup, false), false, map[], map[]), compiles, eval);
    case _ =>
      PodKeeps(w, e, compiles, eval);
  }

  lemma BootIsOk<T>(history: seq<Option<Doc>>, pod: Pod<T>, compiles: string -> bool, eval: (string, T) -> Verdict)
    requires HistoryOk(history, compiles)
    requires pod == Pod(pod.gated, pod.startup, Watch(0, pod.startup, false), false, map[], map[])
    ensures PodOk(pod, history, compiles, eval)
  {
    hide P.Good;
  }

  lemma {:induction false} RunKeepsInv<T>(w: World<T>, es: seq<Event<T>>, compiles: string -> bool,
                                          eval: (string, T) -> Verdict)
    requires Inv(w, compiles, eval) && After(w, es, compiles, eval).Some?
    ensures Inv(After(w, es, compiles, eval).value, compiles, eval)
    decreases |es|
  {
    hide Inv, Next, Enabled;
    if es != [] {
      NextKeepsInv(w, es[0], compiles, eval);
      RunKeepsInv(Next(w, es[0], compiles, eval), es[1..], compiles, eval);
    }
  }

  // --- End to end -----------------------------------------------------------------------------------

  ghost predicate Reachable<T(!new)>(w: World<T>, compiles: string -> bool, eval: (string, T) -> Verdict) {
    exists es :: After(World(P.INIT, map[]), es, compiles, eval) == Some(w)
  }

  lemma ReachableInv<T(!new)>(w: World<T>, compiles: string -> bool, eval: (string, T) -> Verdict)
    requires Reachable(w, compiles, eval)
    ensures Inv(w, compiles, eval)
  {
    var es :| After(World(P.INIT, map[]), es, compiles, eval) == Some(w);
    var start: World<T> := World(P.INIT, map[]);
    assert Inv(start, compiles, eval);
    hide Inv, After;
    RunKeepsInv(start, es, compiles, eval);
  }

  /** A watcher's live filter is always the stored filter at its last accepted version; before the first it is
      the startup filter, and the watcher is not ready. */
  lemma LiveIsStored<T(!new)>(w: World<T>, p: nat, compiles: string -> bool, eval: (string, T) -> Verdict)
    requires Reachable(w, compiles, eval) && p in w.pods
    ensures var watch := w.pods[p].watch;
            && 0 <= watch.last < |w.pub.history|
            && (watch.last == 0 ==> watch.live == w.pods[p].startup && !watch.ready)
            && (watch.last >= 1 ==>
                  && w.pub.history[watch.last].Some? && watch.ready
                  && watch.live == FilterOf(w.pub.history[watch.last].value, compiles) && watch.live.Some?)
  {
    hide Reachable;
    ReachableInv(w, compiles, eval);
    HistoryIsOk(w.pub, compiles);
    hide P.Inv;
    assert PodOk(w.pods[p], w.pub.history, compiles, eval);
    var last := w.pods[p].watch.last;
    assert last >= 1 ==> P.Good(w.pub.history[last], last, compiles);
    hide FilterOf, DecisionsOk;
  }

  /** Every line is decided exactly as one version would decide it, wherever the swaps fell; the versions along
      one worker's lines never decrease; and behind the gate no line is judged by the startup filter. */
  lemma DecidedByOneVersion<T(!new)>(w: World<T>, p: nat, k: nat, compiles: string -> bool,
                                     eval: (string, T) -> Verdict)
    requires Reachable(w, compiles, eval) && p in w.pods && k in w.pods[p].decided
    ensures var pod, ds := w.pods[p], w.pods[p].decided[k];
            && (forall i :: 0 <= i < |ds| ==>
                  && 0 <= ds[i].version < |w.pub.history|
                  && (pod.gated ==> ds[i].version >= 1)
                  && (ds[i].version >= 1 ==> w.pub.history[ds[i].version].Some?)
                  && ds[i].keep == Kept(if ds[i].version == 0 then pod.startup
                                        else FilterOf(w.pub.history[ds[i].version].value, compiles), ds[i].rec, eval))
            && (forall i, j :: 0 <= i <= j < |ds| ==> ds[i].version <= ds[j].version)
  {
    hide Reachable;
    ReachableInv(w, compiles, eval);
    HistoryIsOk(w.pub, compiles);
    hide P.Inv, Kept, FilterOf;
    var pod, ds := w.pods[p], w.pods[p].decided[k];
    assert PodOk(pod, w.pub.history, compiles, eval) && DecisionsOk(pod, ds, w.pub.history, compiles, eval);
    forall i | 0 <= i < |ds| && ds[i].version >= 1 ensures w.pub.history[ds[i].version].Some? {
      assert P.Good(w.pub.history[ds[i].version], ds[i].version, compiles);
    }
  }
}
