/** What every schedule of concurrent publishers keeps (internal/cfgsync/publish.go:53-182). */
module PublishRuns {
  import opened Wrappers
  import opened Filters
  import opened Watchers
  import opened Publish
  import opened PublishSteps

  // --- Every schedule keeps the invariant -----------------------------------------------------

  lemma BeginKeepsInv(s: State, c: nat, call: Call, compiles: string -> bool)
    requires Inv(s, compiles) && c !in s.calls
    requires call.Rejected?
             || (call.Setting? && Gate(call.doc, compiles).Ok?)
             || (call.Looping? && Gate(call.doc, compiles).Ok? && call.attempt == 0 && call.since == |s.log|)
    ensures Inv(With(s, c, call), compiles)
  {
    hide Replays, CallsOk, Gate;
    assert NoneBy(s.log, c);
    MoveKeepsInv(s, c, call, compiles);
  }

  lemma UpsertKeepsInv(s: State, c: nat, compiles: string -> bool)
    requires Inv(s, compiles) && s.history != [] && c in s.calls && s.calls[c].Setting?
    ensures Inv(UpsertStep(s, c), compiles) && c in UpsertStep(s, c).calls
  {
    var doc := s.calls[c].doc;
    var l := SetDoc(c, doc);
    assert CallOk(s, c, compiles);
    StoredIsGood(s, compiles);
    var next := Land(Stored(s), l).value;
    var call := ReadingBack(|s.log|);
    assert UpsertStep(s, c) == Landed(s, l, next, call);
    assert CallOk(Landed(s, l, next, call), c, compiles);
    hide Inv, CallOk, Land, Gate, Landed;
    LandKeepsInv(s, l, next, call, compiles);
  }

  lemma StoredIsGood(s: State, compiles: string -> bool)
    requires Inv(s, compiles)
    ensures if |s.log| == 0 then Stored(s).None?
            else Good(Stored(s), |s.log|, compiles) && Version(Stored(s).value) == Some(|s.log|)
  {
    hide CallsOk, FilterOf, Land, Gate;
    assert |s.log| > 0 ==> Good(s.history[|s.log|], |s.log|, compiles);
  }

  lemma ReadBackKeepsInv(s: State, c: nat, compiles: string -> bool)
    requires Inv(s, compiles) && Enabled(s, ReadBack(c))
    ensures Inv(After1(s, ReadBack(c), compiles), compiles)
  {
    assert CallOk(s, c, compiles);
    StoredIsGood(s, compiles);
    hide Replays, CallsOk, Gate, Good;
    var at := s.calls[c].at;
    var call := Published(|s.log|);
    assert After1(s, ReadBack(c), compiles) == With(s, c, call);
    assert With(s, c, call).log[at].call == c;
    MoveKeepsInv(s, c, call, compiles);
  }

  lemma FetchKeepsInv(s: State, c: nat, compiles: string -> bool)
    requires Inv(s, compiles) && Enabled(s, Fetch(c))
    ensures Inv(After1(s, Fetch(c), compiles), compiles)
  {
    assert CallOk(s, c, compiles);
    assert |s.history| == |s.log| + 1;
    hide Replays, CallsOk, Gate;
    var l := s.calls[c];
    MoveKeepsInv(s, c, Holding(l.doc, l.attempt, l.since, Stored(s), |s.log|), compiles);
  }

  lemma GiveUpKeepsInv(s: State, c: nat, compiles: string -> bool)
    requires Inv(s, compiles) && Enabled(s, GiveUp(c))
    ensures Inv(After1(s, GiveUp(c), compiles), compiles)
  {
    assert CallOk(s, c, compiles);
    hide Replays, CallsOk, Gate;
    MoveKeepsInv(s, c, GaveUp(s.calls[c].since, |s.log|), compiles);
  }

  lemma AttemptKeepsInv(s: State, c: nat, compiles: string -> bool)
    requires IsHolding(s, c) && Inv(s, compiles)
    ensures Inv(TryLandStep(s, c, compiles), compiles) && c in TryLandStep(s, c, compiles).calls
  {
    hide Inv, TryLandStep, Unmoved;
    if Unmoved(s, c) {
      UnmovedLands(s, c, compiles);
    } else {
      MovedMisses(s, c, compiles);
    }
  }

  lemma FaultKeepsInv(s: State, c: nat, applied: bool, compiles: string -> bool)
    requires Inv(s, compiles) && s.history != [] && c in s.calls
    ensures Inv(FaultStep(s, c, applied, compiles), compiles)
  {
    hide Inv, TryLandStep, UpsertStep;
    var t := s;
    if applied && s.calls[c].Setting? {
      UpsertKeepsInv(s, c, compiles);
      t := UpsertStep(s, c);
    } else if applied && s.calls[c].Holding? {
      AttemptKeepsInv(s, c, compiles);
      t := TryLandStep(s, c, compiles);
    }
    assert CallOk(With(t, c, Failed), c, compiles);
    MoveKeepsInv(t, c, Failed, compiles);
  }

  lemma StepKeepsInv(s: State, step: Step, compiles: string -> bool)
    requires Inv(s, compiles) && Enabled(s, step)
    ensures Inv(After1(s, step, compiles), compiles)
  {
    hide Inv, TryLandStep, UpsertStep, FaultStep, Gate;
    match step
    case BeginSet(c, doc) => BeginKeepsInv(s, c, if Gate(doc, compiles).Ok? then Setting(doc) else Rejected, compiles);
    case BeginAppend(c, doc) =>
      BeginKeepsInv(s, c, if Gate(doc, compiles).Ok? then Looping(doc, 0, |s.log|) else Rejected, compiles);
    case Upsert(c) => UpsertKeepsInv(s, c, compiles);
    case ReadBack(c) => ReadBackKeepsInv(s, c, compiles);
    case Fetch(c) => FetchKeepsInv(s, c, compiles);
    case TryLand(c) => AttemptKeepsInv(s, c, compiles);
    case GiveUp(c) => GiveUpKeepsInv(s, c, compiles);
    case Fault(c, applied) => FaultKeepsInv(s, c, applied, compiles);
  }

  lemma {:induction false} RunKeepsInv(s: State, steps: seq<Step>, compiles: string -> bool)
    requires Inv(s, compiles) && After(s, steps, compiles).Some?
    ensures Inv(After(s, steps, compiles).value, compiles)
    decreases |steps|
  {
    hide Inv, After1, Enabled;
    if steps != [] {
      StepKeepsInv(s, steps[0], compiles);
      RunKeepsInv(After1(s, steps[0], compiles), steps[1..], compiles);
    }
  }

  /** s is where some schedule leads. */
  ghost predicate Reachable(s: State, compiles: string -> bool) {
    exists steps :: After(INIT, steps, compiles) == Some(s)
  }

  lemma ReachableInv(s: State, compiles: string -> bool)
    requires Reachable(s, compiles)
    ensures Inv(s, compiles)
  {
    var steps :| After(INIT, steps, compiles) == Some(s);
    RunKeepsInv(INIT, steps, compiles);
  }

  /** The log and the history only grow. */
  lemma {:induction false} RunGrows(s: State, steps: seq<Step>, compiles: string -> bool)
    requires After(s, steps, compiles).Some?
    ensures s.history <= After(s, steps, compiles).value.history && s.log <= After(s, steps, compiles).value.log
    decreases |steps|
  {
    if steps != [] {
      StepGrows(s, steps[0], compiles);
      hide After1, Enabled;
      RunGrows(After1(s, steps[0], compiles), steps[1..], compiles);
    }
  }

  lemma StepGrows(s: State, step: Step, compiles: string -> bool)
    requires Enabled(s, step)
    ensures s.history <= After1(s, step, compiles).history && s.log <= After1(s, step, compiles).log
  {
    hide Gate, Merge, First, Bumped, Stripped;
  }

  // --- Linearizability ------------------------------------------------------------------------------

  /** Every version is what its landing made of the one before; version v is the v-th landing. */
  lemma Linearizable(s: State, v: nat, compiles: string -> bool)
    requires Reachable(s, compiles) && v < |s.log|
    ensures |s.history| == |s.log| + 1 && s.history[0] == None
    ensures s.history[v + 1] == Land(s.history[v], s.log[v]) && s.history[v + 1].Some?
    ensures Version(s.history[v + 1].value) == Some(v + 1) && FilterOf(s.history[v + 1].value, compiles).Some?
  {
    ReachableInv(s, compiles);
    assert s.log[v] == s.log[v];
    assert Good(s.history[v + 1], v + 1, compiles);
    hide CallsOk, Land, Gate, FilterOf;
  }

  /** The rule lists of a good document. */
  function Lists(doc: Option<Doc>, compiles: string -> bool): Filter
    requires doc.Some? && FilterOf(doc.value, compiles).Some?
  {
    FilterOf(doc.value, compiles).value
  }

  /** Rule lists with the delta of one landed append joined in. */
  function Joined(f: Filter, l: Landing): Filter
    requires Side(l.doc, "include").Ok? && Side(l.doc, "exclude").Ok?
  {
    Filter(Union(f.includes, Side(l.doc, "include").value), Union(f.excludes, Side(l.doc, "exclude").value))
  }

  predicate HasSides(ls: seq<Landing>) {
    forall i :: 0 <= i < |ls| ==> Side(ls[i].doc, "include").Ok? && Side(ls[i].doc, "exclude").Ok?
  }

  function JoinAll(f: Filter, ls: seq<Landing>): Filter
    requires HasSides(ls)
    decreases |ls|
  {
    if ls == [] then f else Joined(JoinAll(f, ls[..|ls| - 1]), ls[|ls| - 1])
  }

  predicate AllAppends(ls: seq<Landing>) {
    forall i :: 0 <= i < |ls| ==> ls[i].Append?
  }

  lemma GatedHasSides(l: Landing, compiles: string -> bool)
    requires Gate(l.doc, compiles).Ok?
    ensures FilterOf(l.doc, compiles) ==
            Some(Filter(Side(l.doc, "include").value, Side(l.doc, "exclude").value))
    ensures Side(l.doc, "include").Ok? && Side(l.doc, "exclude").Ok?
  {
    GateMeans(l.doc, compiles);
    hide Rules, Gate;
  }

  /** A landed append joins its delta; the first landing and a set-mode landing replace the lists. */
  lemma LandsLists(cur: Option<Doc>, v: nat, l: Landing, compiles: string -> bool)
    requires Gate(l.doc, compiles).Ok?
    requires if v == 0 then cur.None? else Good(cur, v, compiles)
    ensures Side(l.doc, "include").Ok? && Side(l.doc, "exclude").Ok?
    ensures var next := Land(cur, l);
            && next.Some? && FilterOf(next.value, compiles).Some?
            && Lists(next, compiles) ==
               (if cur.Some? && l.Append? then Joined(Lists(cur, compiles), l)
                else Filter(Side(l.doc, "include").value, Side(l.doc, "exclude").value))
  {
    GatedHasSides(l, compiles);
    if cur.None? {
      FirstIsGood(l.doc, compiles);
    } else if l.SetDoc? {
      GateMeans(l.doc, compiles);
      BumpedIsGood(cur.value, v, Stripped(l.doc), compiles);
    } else {
      MergedPassesGate(cur.value, v, l.doc, compiles);
      BumpedIsGood(cur.value, v, Merge(cur.value, l.doc).value, compiles);
      ListsAreSides(cur, compiles);
    }
    hide Gate, Merge, First, Bumped, Union, Stripped, AppliesCleanly;
  }

  lemma ListsAreSides(doc: Option<Doc>, compiles: string -> bool)
    requires doc.Some? && FilterOf(doc.value, compiles).Some?
    ensures Side(doc.value, "include").Ok? && Side(doc.value, "exclude").Ok?
    ensures Lists(doc, compiles) == Filter(Side(doc.value, "include").value, Side(doc.value, "exclude").value)
  {
  }

  /** Between set-mode publishes, the lists at a version are the earlier lists with the landed deltas joined in
      version order. */
  lemma {:induction false} ListsFold(s: State, i: nat, j: nat, compiles: string -> bool)
    requires Inv(s, compiles) && 1 <= i <= j <= |s.log| && AllAppends(s.log[i..j])
    ensures Good(s.history[i], i, compiles) && Good(s.history[j], j, compiles)
    ensures HasSides(s.log[i..j])
    ensures Lists(s.history[j], compiles) == JoinAll(Lists(s.history[i], compiles), s.log[i..j])
    decreases j - i
  {
    hide Inv, AllAppends, HasSides, Lists, JoinAll, Good;
    GoodAt(s, i, compiles);
    if i < j {
      AppendsInit(s.log, i, j);
      ListsFold(s, i, j - 1, compiles);
      OneMoreJoined(s, i, j, Lists(s.history[i], compiles), compiles);
    } else {
      NoneJoined(Lists(s.history[i], compiles));
      assert s.log[i..j] == [];
    }
  }

  lemma GoodAt(s: State, i: nat, compiles: string -> bool)
    requires Inv(s, compiles) && 1 <= i <= |s.log|
    ensures |s.history| == |s.log| + 1 && Good(s.history[i], i, compiles)
    ensures s.history[i].Some? && FilterOf(s.history[i].value, compiles).Some?
  {
    hide CallsOk, Land, Gate, FilterOf;
    assert Good(s.history[i], i, compiles);
  }

  lemma AppendsInit(log: seq<Landing>, i: nat, j: nat)
    requires i < j <= |log| && AllAppends(log[i..j])
    ensures AllAppends(log[i..j - 1]) && log[j - 1].Append?
  {
    var all, init := log[i..j], log[i..j - 1];
    assert all[j - 1 - i] == log[j - 1];
    forall k | 0 <= k < |init| ensures init[k].Append? {
      assert init[k] == all[k];
    }
  }

  lemma NoneJoined(f: Filter)
    ensures HasSides([]) && JoinAll(f, []) == f
  {
  }

  /** One more landed append joins its delta to what has been joined so far. */
  lemma OneMoreJoined(s: State, i: nat, j: nat, f: Filter, compiles: string -> bool)
    requires Inv(s, compiles) && 1 <= i < j <= |s.log| && s.log[j - 1].Append?
    requires |s.history| == |s.log| + 1 && Good(s.history[j - 1], j - 1, compiles)
    requires HasSides(s.log[i..j - 1]) && Lists(s.history[j - 1], compiles) == JoinAll(f, s.log[i..j - 1])
    ensures Good(s.history[j], j, compiles) && HasSides(s.log[i..j])
    ensures Lists(s.history[j], compiles) == JoinAll(f, s.log[i..j])
  {
    hide Inv, HasSides, JoinAll, Good, Land, Gate, FilterOf, Side, Union;
    var l, ls := s.log[j - 1], s.log[i..j];
    GoodAt(s, j - 1, compiles);
    GoodAt(s, j, compiles);
    LandedAt(s, j - 1, compiles);
    LandsLists(s.history[j - 1], j - 1, l, compiles);
    assert ls[..|ls| - 1] == s.log[i..j - 1] && ls[|ls| - 1] == l;
    SidesSnoc(ls);
    JoinSnoc(f, ls);
  }

  lemma LandedAt(s: State, v: nat, compiles: string -> bool)
    requires Inv(s, compiles) && v < |s.log|
    ensures |s.history| == |s.log| + 1 && s.history[v + 1] == Land(s.history[v], s.log[v])
    ensures Gate(s.log[v].doc, compiles).Ok?
  {
    hide CallsOk, Land, Gate, Good;
  }

  lemma JoinSnoc(f: Filter, ls: seq<Landing>)
    requires ls != [] && HasSides(ls[..|ls| - 1]) && HasSides(ls)
    requires Side(ls[|ls| - 1].doc, "include").Ok? && Side(ls[|ls| - 1].doc, "exclude").Ok?
    ensures JoinAll(f, ls) == Joined(JoinAll(f, ls[..|ls| - 1]), ls[|ls| - 1])
  {
    hide Side, Union;
  }

  lemma SidesSnoc(ls: seq<Landing>)
    requires ls != [] && HasSides(ls[..|ls| - 1])
    requires Side(ls[|ls| - 1].doc, "include").Ok? && Side(ls[|ls| - 1].doc, "exclude").Ok?
    ensures HasSides(ls)
  {
    hide Side;
    forall i | 0 <= i < |ls| ensures Side(ls[i].doc, "include").Ok? && Side(ls[i].doc, "exclude").Ok? {
      if i < |ls| - 1 {
        assert ls[..|ls| - 1][i] == ls[i];
      }
    }
  }

  /** The lists start as the first landed document's own. */
  lemma ListsStart(s: State, compiles: string -> bool)
    requires Inv(s, compiles) && |s.log| > 0
    ensures Good(s.history[1], 1, compiles) && Some(Lists(s.history[1], compiles)) == FilterOf(s.log[0].doc, compiles)
  {
    hide CallsOk, Land, Gate, FilterOf;
    assert s.history[1] == Land(s.history[0], s.log[0]);
    assert Good(s.history[1], 1, compiles);
    LandsLists(None, 0, s.log[0], compiles);
    GatedHasSides(s.log[0], compiles);
  }

  // --- No landed rule is lost ------------------------------------------------------------------------

  lemma {:induction false} JoinAllKeeps(f: Filter, ls: seq<Landing>)
    requires HasSides(ls)
    ensures f.includes <= JoinAll(f, ls).includes && f.excludes <= JoinAll(f, ls).excludes
    ensures forall k, r :: 0 <= k < |ls| && r in Side(ls[k].doc, "include").value ==> r in JoinAll(f, ls).includes
    ensures forall k, r :: 0 <= k < |ls| && r in Side(ls[k].doc, "exclude").value ==> r in JoinAll(f, ls).excludes
    ensures (forall k :: 0 <= k < |ls| ==> Side(ls[k].doc, "include").value == []) ==>
              JoinAll(f, ls).includes == f.includes
    ensures (forall k :: 0 <= k < |ls| ==> Side(ls[k].doc, "exclude").value == []) ==>
              JoinAll(f, ls).excludes == f.excludes
    decreases |ls|
  {
    hide Side, Union;
    if ls != [] {
      var n := |ls| - 1;
      var init := ls[..n];
      assert forall k :: 0 <= k < n ==> init[k] == ls[k];
      JoinAllKeeps(f, init);
      var was := JoinAll(f, init);
      UnionMeans(was.includes, Side(ls[n].doc, "include").value);
      UnionMeans(was.excludes, Side(ls[n].doc, "exclude").value);
      UnionAbsorbs(was.includes, []);
      UnionAbsorbs(was.excludes, []);
      assert JoinAll(f, ls) == Joined(was, ls[n]);
    }
  }

  /** Until a set-mode publish no landed rule is lost: stored order is kept as a prefix, every landed delta's
      rules stay, and a side that every delta omits is unchanged. */
  lemma NoRuleLost(s: State, i: nat, j: nat, compiles: string -> bool)
    requires Reachable(s, compiles) && 1 <= i <= j <= |s.log| && AllAppends(s.log[i..j])
    ensures |s.history| == |s.log| + 1 && s.history[i].Some? && s.history[j].Some?
    ensures FilterOf(s.history[i].value, compiles).Some? && FilterOf(s.history[j].value, compiles).Some?
    ensures var was, now := Lists(s.history[i], compiles), Lists(s.history[j], compiles);
            && was.includes <= now.includes && was.excludes <= now.excludes
            && (forall k {:trigger s.log[k]} :: i <= k < j ==>
                  FilterOf(s.log[k].doc, compiles).Some?
                  && (forall r :: r in FilterOf(s.log[k].doc, compiles).value.includes ==> r in now.includes)
                  && (forall r :: r in FilterOf(s.log[k].doc, compiles).value.excludes ==> r in now.excludes))
            && ((forall k :: i <= k < j ==> FilterOf(s.log[k].doc, compiles).value.includes == []) ==>
                  now.includes == was.includes)
            && ((forall k :: i <= k < j ==> FilterOf(s.log[k].doc, compiles).value.excludes == []) ==>
                  now.excludes == was.excludes)
  {
    hide Inv, Reachable, AllAppends, FilterOf, Side, JoinAll, Gate, Good;
    ReachableInv(s, compiles);
    GoodAt(s, i, compiles);
    GoodAt(s, j, compiles);
    ListsFold(s, i, j, compiles);
    var ls := s.log[i..j];
    JoinAllKeeps(Lists(s.history[i], compiles), ls);
    forall k | i <= k < j
      ensures FilterOf(s.log[k].doc, compiles) ==
              Some(Filter(Side(ls[k - i].doc, "include").value, Side(ls[k - i].doc, "exclude").value))
    {
      assert ls[k - i] == s.log[k];
      LandedAt(s, k, compiles);
      GatedHasSides(s.log[k], compiles);
    }
    assert forall k :: 0 <= k < |ls| ==> ls[k] == s.log[i + k];
  }

  // --- Versions, contention and failed calls -------------------------------------------------------------

  lemma AppendedAt(s: State, c: nat, compiles: string -> bool)
    requires Inv(s, compiles) && HasAppended(s, c)
    ensures 1 <= s.calls[c].version <= |s.log| && s.log[s.calls[c].version - 1].call == c
            && s.log[s.calls[c].version - 1].Append?
  {
    hide Replays, Gate;
    assert CallOk(s, c, compiles);
  }

  /** Each append returns its own version: the position of its own landing. */
  lemma DistinctVersions(s: State, c: nat, d: nat, compiles: string -> bool)
    requires Reachable(s, compiles) && HasAppended(s, c) && HasAppended(s, d) && c != d
    ensures s.calls[c].version != s.calls[d].version
    ensures 1 <= s.calls[c].version <= |s.log| && s.log[s.calls[c].version - 1].call == c
  {
    hide Reachable, Inv;
    ReachableInv(s, compiles);
    AppendedAt(s, c, compiles);
    AppendedAt(s, d, compiles);
  }

  /** A set-mode call returns a version no older than its own landing. */
  lemma PublishedIsNoOlder(s: State, c: nat, compiles: string -> bool)
    requires Reachable(s, compiles) && c in s.calls && s.calls[c].Published?
    ensures exists at :: 0 <= at < s.calls[c].version <= |s.log| && s.log[at].call == c
  {
    ReachableInv(s, compiles);
    hide Replays, Gate;
    assert CallOk(s, c, compiles);
  }

  /** Lock-free progress: a call that gives up saw at least eight landings after it began, none its own. */
  lemma GivingUpMeansContention(s: State, c: nat, compiles: string -> bool)
    requires Reachable(s, compiles) && c in s.calls && s.calls[c].GaveUp?
    ensures var g := s.calls[c];
            && g.since + 8 <= g.until <= |s.log|
            && forall i :: 0 <= i < |s.log| ==> s.log[i].call != c
  {
    ReachableInv(s, compiles);
    hide Replays, Gate;
    assert CallOk(s, c, compiles);
  }

  /** An append makes eight attempts and no more: it gives up exactly when the eighth has missed. */
  lemma EightAttempts(s: State, c: nat, compiles: string -> bool)
    requires Reachable(s, compiles) && c in s.calls
    ensures s.calls[c].Holding? ==> s.calls[c].attempt < 8
    ensures s.calls[c].Looping? ==> s.calls[c].attempt <= 8
    ensures Enabled(s, GiveUp(c)) <==> s.calls[c].Looping? && s.calls[c].attempt == 8
    ensures Enabled(s, Fetch(c)) <==> s.calls[c].Looping? && s.calls[c].attempt < 8
  {
    CallIsOk(s, c, compiles);
    hide Reachable, Gate, NoneBy;
  }

  lemma CallIsOk(s: State, c: nat, compiles: string -> bool)
    requires Reachable(s, compiles) && c in s.calls
    ensures CallOk(s, c, compiles) && s.history != []
  {
    hide Reachable, CallOk, Gate;
    ReachableInv(s, compiles);
  }

  /** A call that gave up or was rejected has changed nothing. */
  lemma RefusedCallsLeaveNoTrace(s: State, c: nat, compiles: string -> bool)
    requires Reachable(s, compiles) && c in s.calls && (s.calls[c].GaveUp? || s.calls[c].Rejected?)
    ensures forall i :: 0 <= i < |s.log| ==> s.log[i].call != c
  {
    hide Reachable;
    ReachableInv(s, compiles);
    hide Replays, Gate;
    assert CallOk(s, c, compiles);
  }

  /** No call lands more than once, however it ended. */
  lemma LandsAtMostOnce(s: State, i: nat, j: nat, compiles: string -> bool)
    requires Reachable(s, compiles) && i < |s.log| && j < |s.log| && s.log[i].call == s.log[j].call
    ensures i == j
  {
    hide Reachable;
    ReachableInv(s, compiles);
    hide Replays, CallsOk;
  }

  // --- Calls that fail although they landed --------------------------------------------------------------

  predicate HasLanded(s: State, c: nat) {
    !NoneBy(s.log, c)
  }

  /** A database fault that ends a call tells its caller of an error.  The write is stored exactly when the fault
      struck the read-back, or struck the write itself but left it applied: an upsert always lands, an append if
      nothing landed since its fetch. */
  lemma FaultLandsIff(s: State, c: nat, applied: bool, compiles: string -> bool)
    requires Reachable(s, compiles) && Enabled(s, Fault(c, applied))
    ensures After1(s, Fault(c, applied), compiles).calls[c].Failed?
    ensures var call := s.calls[c];
            HasLanded(After1(s, Fault(c, applied), compiles), c) <==>
            call.ReadingBack? || (applied && (call.Setting? || (call.Holding? && call.at == |s.log|)))
  {
    ReachableInv(s, compiles);
    assert CallOk(s, c, compiles);
    hide Reachable, CallsOk, Replays, Gate;
    if applied && s.calls[c].Setting? {
      UpsertLands(s, c, compiles);
    } else if applied && s.calls[c].Holding? {
      AttemptEnds(s, c, compiles);
      AttemptLandsIff(s, c, compiles);
    } else if s.calls[c].ReadingBack? {
      assert s.log[s.calls[c].at].call == c;
    }
  }

  lemma UpsertLands(s: State, c: nat, compiles: string -> bool)
    requires Inv(s, compiles) && c in s.calls && s.calls[c].Setting? && s.history != []
    ensures HasLanded(UpsertStep(s, c), c)
  {
    StoredIsGood(s, compiles);
    var log := UpsertStep(s, c).log;
    assert log[|log| - 1].call == c;
  }

  lemma AttemptLandsIff(s: State, c: nat, compiles: string -> bool)
    requires IsHolding(s, c) && NoneBy(s.log, c)
    ensures HasLanded(TryLandStep(s, c, compiles), c) <==> HasAppended(TryLandStep(s, c, compiles), c)
  {
    hide Gate, Merge, First, Bumped;
    var s' := TryLandStep(s, c, compiles);
    if HasAppended(s', c) {
      assert s'.log[|s.log|].call == c;
    } else {
      assert s'.log == s.log;
    }
  }

  /** What has ended never lands later: no later steps of any calls change it or add a write of it. */
  lemma {:induction false} EndedStays(s: State, c: nat, steps: seq<Step>, compiles: string -> bool)
    requires c in s.calls && !Running(s.calls[c]) && After(s, steps, compiles).Some?
    ensures var s' := After(s, steps, compiles).value;
            c in s'.calls && s'.calls[c] == s.calls[c] && (HasLanded(s', c) <==> HasLanded(s, c))
    decreases |steps|
  {
    hide After1, Enabled, HasLanded;
    if steps != [] {
      EndedStaysOnce(s, c, steps[0], compiles);
      EndedStays(After1(s, steps[0], compiles), c, steps[1..], compiles);
    }
  }

  lemma EndedStaysOnce(s: State, c: nat, step: Step, compiles: string -> bool)
    requires c in s.calls && !Running(s.calls[c]) && Enabled(s, step)
    ensures var s' := After1(s, step, compiles);
            c in s'.calls && s'.calls[c] == s.calls[c] && (HasLanded(s', c) <==> HasLanded(s, c))
  {
    hide Gate, Merge, First, Bumped, Stripped;
    var s' := After1(s, step, compiles);
    assert s'.calls[c] == s.calls[c];
    if |s'.log| > |s.log| {
      assert s'.log[..|s.log|] == s.log && |s'.log| == |s.log| + 1 && s'.log[|s.log|].call != c;
    } else {
      assert s'.log == s.log;
    }
  }

  const EMPTY_FILTER: Doc := map["filter" := Sub(map[])]

  lemma EmptyFilterPasses(compiles: string -> bool)
    ensures Gate(EMPTY_FILTER, compiles) == Ok(EMPTY_FILTER)
  {
    assert Stripped(EMPTY_FILTER) == EMPTY_FILTER;
    assert "filter" in EMPTY_FILTER && EMPTY_FILTER != map[];
    assert FilterIn(map[], compiles) == Some(Filter([], []));
  }

  lemma ThreeSteps(s: State, a: Step, b: Step, c: Step, compiles: string -> bool)
    requires Enabled(s, a) && Enabled(After1(s, a, compiles), b)
    requires Enabled(After1(After1(s, a, compiles), b, compiles), c)
    ensures After(s, [a, b, c], compiles) == Some(After1(After1(After1(s, a, compiles), b, compiles), c, compiles))
  {
    hide After1, Enabled;
    var s1 := After1(s, a, compiles);
    var s2 := After1(s1, b, compiles);
    assert [a, b, c][1..] == [b, c] && [b, c][1..] == [c] && [c][1..] == [];
    assert After(s2, [c], compiles) == Some(After1(s2, c, compiles));
    assert After(s1, [b, c], compiles) == After(s2, [c], compiles);
  }

  /** A set-mode call whose read-back fails returns an error, yet its write is stored. */
  lemma ReadBackFaultHasLanded(compiles: string -> bool) returns (steps: seq<Step>, s: State)
    ensures After(INIT, steps, compiles) == Some(s)
    ensures 0 in s.calls && s.calls[0].Failed? && s.log == [SetDoc(0, EMPTY_FILTER)]
  {
    EmptyFilterPasses(compiles);
    hide Gate;
    steps := [BeginSet(0, EMPTY_FILTER), PublishSteps.Upsert(0), Fault(0, false)];
    var s1 := After1(INIT, steps[0], compiles);
    assert s1.calls == map[0 := Setting(EMPTY_FILTER)] && s1.log == [];
    var s2 := After1(s1, steps[1], compiles);
    assert s2.calls[0] == ReadingBack(0) && s2.log == [SetDoc(0, EMPTY_FILTER)];
    s := After1(s2, steps[2], compiles);
    ThreeSteps(INIT, steps[0], steps[1], steps[2], compiles);
  }

  /** An append whose reply is lost returns an error, yet its write is stored. */
  lemma LostReplyHasLanded(compiles: string -> bool) returns (steps: seq<Step>, s: State)
    ensures After(INIT, steps, compiles) == Some(s)
    ensures 0 in s.calls && s.calls[0].Failed? && s.log == [Append(0, EMPTY_FILTER)]
  {
    EmptyFilterPasses(compiles);
    hide Gate;
    steps := [BeginAppend(0, EMPTY_FILTER), Fetch(0), Fault(0, true)];
    var s1 := After1(INIT, steps[0], compiles);
    assert s1.calls == map[0 := Looping(EMPTY_FILTER, 0, 0)] && s1.log == [] && s1.history == [None];
    var s2 := After1(s1, steps[1], compiles);
    assert s2.calls == map[0 := Holding(EMPTY_FILTER, 0, 0, None, 0)] && s2.log == [];
    s := After1(s2, steps[2], compiles);
    ThreeSteps(INIT, steps[0], steps[1], steps[2], compiles);
  }

  /** An attempt lands exactly when nothing landed since its fetch; else it goes round again.  Merging and
      re-validating never reject what the first gate let in. */
  lemma AttemptEnds(s: State, c: nat, compiles: string -> bool)
    requires Reachable(s, compiles) && IsHolding(s, c)
    ensures HasAppended(TryLandStep(s, c, compiles), c) <==> s.calls[c].at == |s.log|
    ensures HasLooped(TryLandStep(s, c, compiles), c) <==> s.calls[c].at < |s.log|
  {
    ReachableInv(s, compiles);
    HoldingKnows(s, c, compiles);
    hide Inv, TryLandStep, Unmoved;
    if Unmoved(s, c) {
      UnmovedLands(s, c, compiles);
    } else {
      MovedMisses(s, c, compiles);
    }
  }
}
