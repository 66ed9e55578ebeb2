/** Concurrent publishers of one configuration document, every database call its own step
    (internal/cfgsync/publish.go:53-182).

    A call is one Publish or PublishAppend; it runs once.  The document is never deleted and starts
    unpublished, so its n-th version is what the n-th landed write left.
 */
module PublishSteps {
  import opened Wrappers
  import opened Filters
  import opened Watchers
  import opened Publish

  const ATTEMPTS: nat := 8

  const DOCUMENT_ID := Str("runtime")

  /** A write that landed, by the call that made it and the document that call was given. */
  datatype Landing = SetDoc(call: nat, doc: Doc) | Append(call: nat, doc: Doc)

  function First(content: Doc): Doc {
    map["_id" := DOCUMENT_ID, "version" := Num(1)] + content
  }

  /** `$inc` of the version by one: a missing one becomes 1, and one that is not a number is an error. */
  function NextVersion(cur: Doc): Option<int> {
    if "version" !in cur then Some(1)
    else if cur["version"].Num? then Some(cur["version"].n + 1)
    else None
  }

  /** `$set` of the content and `$inc` of the version. */
  function Bumped(cur: Doc, content: Doc): Doc
    requires NextVersion(cur).Some?
  {
    (cur + content)["version" := Num(NextVersion(cur).value)]
  }

  /** What a landed write makes of the stored document. */
  function Land(cur: Option<Doc>, l: Landing): Option<Doc> {
    if cur.None? then Some(First(Stripped(l.doc)))
    else if l.SetDoc? then
      if NextVersion(cur.value).None? then cur else Some(Bumped(cur.value, Stripped(l.doc)))
    else
      var m := Merge(cur.value, l.doc);
      if Version(cur.value).None? || m.Err? then cur else Some(Bumped(cur.value, m.value))
  }

  // Where a call is.  `since`, `at` and `until` are positions in the log, kept for the proofs: where the call
  // began, where it last fetched, and where it gave up.  A Failed call met a database fault: its caller is told of
  // an error, but its write may have landed.
  datatype Call =
    | Setting(doc: Doc)
    | ReadingBack(at: nat)
    | Looping(doc: Doc, attempt: nat, since: nat)
    | Holding(doc: Doc, attempt: nat, since: nat, cur: Option<Doc>, at: nat)
    | Published(version: int)
    | Appended(version: int)
    | Rejected
    | GaveUp(since: nat, until: nat)
    | Failed

  /** history[i] is the document after i landings. */
  datatype State = State(history: seq<Option<Doc>>, log: seq<Landing>, calls: map<nat, Call>)

  const INIT := State([None], [], map[])

  datatype Step =
    | BeginSet(call: nat, doc: Doc)
    | BeginAppend(call: nat, doc: Doc)
    | Upsert(call: nat)
    | ReadBack(call: nat)
    | Fetch(call: nat)
    | TryLand(call: nat)
    | GiveUp(call: nat)
    | Fault(call: nat, applied: bool)

  function Stored(s: State): Option<Doc>
    requires s.history != []
  {
    s.history[|s.history| - 1]
  }

  predicate Running(c: Call) {
    c.Setting? || c.ReadingBack? || c.Looping? || c.Holding?
  }

  predicate IsHolding(s: State, c: nat) {
    c in s.calls && s.calls[c].Holding? && s.history != []
  }

  predicate Enabled(s: State, step: Step) {
    && s.history != []
    && match step
       case BeginSet(c, _) => c !in s.calls
       case BeginAppend(c, _) => c !in s.calls
       case Upsert(c) => c in s.calls && s.calls[c].Setting?
       case ReadBack(c) => c in s.calls && s.calls[c].ReadingBack?
       case Fetch(c) => c in s.calls && s.calls[c].Looping? && s.calls[c].attempt < ATTEMPTS
       case TryLand(c) => IsHolding(s, c)
       case GiveUp(c) => c in s.calls && s.calls[c].Looping? && s.calls[c].attempt >= ATTEMPTS
       case Fault(c, _) => c in s.calls && Running(s.calls[c])
  }

  function With(s: State, c: nat, call: Call): State {
    s.(calls := s.calls[c := call])
  }

  function Landed(s: State, l: Landing, doc: Doc, call: Call): State {
    State(s.history + [Some(doc)], s.log + [l], s.calls[l.call := call])
  }

  /** The insert or the guarded update that ends one attempt. */
  function TryLandStep(s: State, c: nat, compiles: string -> bool): State
    requires IsHolding(s, c)
  {
    var h := s.calls[c];
    var again := With(s, c, Looping(h.doc, h.attempt + 1, h.since));
    if h.cur.None? then
      if Gate(h.doc, compiles).Err? then With(s, c, Rejected)
      else if Stored(s).Some? then again
      else Landed(s, Append(c, h.doc), First(Gate(h.doc, compiles).value), Appended(1))
    else
      var merged := Merge(h.cur.value, h.doc);
      if Version(h.cur.value).None? || merged.Err? || Gate(merged.value, compiles).Err? then With(s, c, Rejected)
      else if Stored(s).None? || Version(Stored(s).value) != Version(h.cur.value) then again
      else Landed(s, Append(c, h.doc), Bumped(Stored(s).value, Gate(merged.value, compiles).value),
                  Appended(Version(h.cur.value).value + 1))
  }

  /** The one upsert of set mode. */
  function UpsertStep(s: State, c: nat): State
    requires s.history != [] && c in s.calls && s.calls[c].Setting?
  {
    var doc := s.calls[c].doc;
    var content := Stripped(doc);
    if Stored(s).None? then Landed(s, SetDoc(c, doc), First(content), ReadingBack(|s.log|))
    else if NextVersion(Stored(s).value).None? then With(s, c, Failed)
    else Landed(s, SetDoc(c, doc), Bumped(Stored(s).value, content), ReadingBack(|s.log|))
  }

  /** A database call fails, with or without having taken effect, and ends its publish call. */
  function FaultStep(s: State, c: nat, applied: bool, compiles: string -> bool): State
    requires s.history != [] && c in s.calls
  {
    With(if applied && s.calls[c].Setting? then UpsertStep(s, c)
         else if applied && s.calls[c].Holding? then TryLandStep(s, c, compiles)
         else s, c, Failed)
  }

  function After1(s: State, step: Step, compiles: string -> bool): State
    requires Enabled(s, step)
  {
    match step
    case BeginSet(c, doc) => With(s, c, if Gate(doc, compiles).Ok? then Setting(doc) else Rejected)
    case BeginAppend(c, doc) => With(s, c, if Gate(doc, compiles).Ok? then Looping(doc, 0, |s.log|) else Rejected)
    case Upsert(c) => UpsertStep(s, c)
    case ReadBack(c) =>
      var v := if Stored(s).None? then None else Version(Stored(s).value);
      With(s, c, Published(if v.None? then 0 else v.value))
    case Fetch(c) =>
      var l := s.calls[c];
      With(s, c, Holding(l.doc, l.attempt, l.since, Stored(s), |s.log|))
    case TryLand(c) => TryLandStep(s, c, compiles)
    case GiveUp(c) => With(s, c, GaveUp(s.calls[c].since, |s.log|))
    case Fault(c, applied) => FaultStep(s, c, applied, compiles)
  }

  /** Where a schedule of steps leads, if each was enabled. */
  function After(s: State, steps: seq<Step>, compiles: string -> bool): Option<State>
    decreases |steps|
  {
    if steps == [] then Some(s)
    else if !Enabled(s, steps[0]) then None
    else After(After1(s, steps[0], compiles), steps[1..], compiles)
  }

  // --- The invariant --------------------------------------------------------------------------

  /** The stored document at version v: its own fields, one good filter, nothing else. */
  predicate Good(doc: Option<Doc>, v: int, compiles: string -> bool) {
    && doc.Some? && Version(doc.value) == Some(v)
    && doc.value.Keys == {"_id", "version", "filter"}
    && FilterOf(doc.value, compiles).Some?
  }

  /** The log replays to the history, version by version. */
  predicate Replays(history: seq<Option<Doc>>, log: seq<Landing>, compiles: string -> bool) {
    && |history| == |log| + 1
    && history[0] == None
    && (forall i {:trigger log[i]} :: 0 <= i < |log| ==> history[i + 1] == Land(history[i], log[i]))
    && (forall i {:trigger history[i]} :: 1 <= i < |history| ==> Good(history[i], i, compiles))
    && (forall i :: 0 <= i < |log| ==> Gate(log[i].doc, compiles).Ok?)
  }

  predicate NoneBy(log: seq<Landing>, c: nat) {
    forall i :: 0 <= i < |log| ==> log[i].call != c
  }

  predicate CallOk(s: State, c: nat, compiles: string -> bool)
    requires c in s.calls
  {
    match s.calls[c]
    case Setting(doc) => Gate(doc, compiles).Ok? && NoneBy(s.log, c)
    case ReadingBack(at) => at < |s.log| && s.log[at].call == c
    case Looping(doc, k, since) =>
      Gate(doc, compiles).Ok? && k <= ATTEMPTS && since + k <= |s.log| && NoneBy(s.log, c)
    case Holding(doc, k, since, cur, at) =>
      && Gate(doc, compiles).Ok? && k < ATTEMPTS && since + k <= at <= |s.log|
      && at < |s.history| && cur == s.history[at] && NoneBy(s.log, c)
    case Published(v) => exists at :: 0 <= at < v <= |s.log| && s.log[at].call == c
    case Appended(v) => 1 <= v <= |s.log| && s.log[v - 1].call == c && s.log[v - 1].Append?
    case Rejected => NoneBy(s.log, c)
    case GaveUp(since, until) => since + ATTEMPTS <= until <= |s.log| && NoneBy(s.log, c)
    case Failed => true
  }

  /** Each call has at most one log entry, and the log replays. */
  predicate LogOk(s: State, compiles: string -> bool) {
    && Replays(s.history, s.log, compiles)
    && (forall i :: 0 <= i < |s.log| ==> s.log[i].call in s.calls)
    && (forall i, j :: 0 <= i < j < |s.log| ==> s.log[i].call != s.log[j].call)
  }

  predicate CallsOk(s: State, compiles: string -> bool) {
    forall c :: c in s.calls ==> CallOk(s, c, compiles)
  }

  predicate Inv(s: State, compiles: string -> bool) {
    LogOk(s, compiles) && CallsOk(s, compiles)
  }

  // --- A landed write keeps the document good -----------------------------------------------------

  lemma FirstIsGood(doc: Doc, compiles: string -> bool)
    requires Gate(doc, compiles).Ok?
    ensures Good(Some(First(Stripped(doc))), 1, compiles)
    ensures FilterOf(First(Stripped(doc)), compiles) == FilterOf(doc, compiles)
  {
    GateMeans(doc, compiles);
    hide FilterIn, AppliesCleanly;
  }

  lemma BumpedIsGood(cur: Doc, v: int, content: Doc, compiles: string -> bool)
    requires Good(Some(cur), v, compiles)
    requires content.Keys == {"filter"} && FilterOf(content, compiles).Some?
    ensures Good(Some(Bumped(cur, content)), v + 1, compiles)
    ensures FilterOf(Bumped(cur, content), compiles) == FilterOf(content, compiles)
  {
    hide FilterIn;
    assert Bumped(cur, content)["filter"] == content["filter"];
  }

  /** Merging a gated delta into a good document is never refused, and the gate passes the result as it is. */
  lemma MergedPassesGate(cur: Doc, v: int, delta: Doc, compiles: string -> bool)
    requires Good(Some(cur), v, compiles) && Gate(delta, compiles).Ok?
    ensures Merge(cur, delta).Ok? && Gate(Merge(cur, delta).value, compiles) == Ok(Merge(cur, delta).value)
    ensures var m := Merge(cur, delta).value; m.Keys == {"filter"} && FilterOf(m, compiles) == Some(Filter(
              Union(Side(cur, "include").value, Side(delta, "include").value),
              Union(Side(cur, "exclude").value, Side(delta, "exclude").value)))
  {
    GateMeans(delta, compiles);
    MergeJoins(cur, delta, compiles);
    var m := Merge(cur, delta).value;
    NoStray(cur, delta);
    hide FilterIn, Merge, Union;
    assert m.Keys == {"filter"};
    assert Stripped(m) == m;
    assert m != map[] by { assert "filter" in m; }
  }

  lemma NoStray(cur: Doc, delta: Doc)
    requires cur.Keys == {"_id", "version", "filter"} && Stripped(delta).Keys == {"filter"}
    ensures !HasStray(cur) && !HasStray(delta)
  {
    forall k | k in delta && !Reserved(k) ensures k == "filter" {
      assert k in Stripped(delta);
    }
  }

  lemma LandIsGood(cur: Option<Doc>, v: nat, l: Landing, compiles: string -> bool)
    requires Gate(l.doc, compiles).Ok?
    requires if v == 0 then cur.None? else Good(cur, v, compiles)
    ensures Good(Land(cur, l), v + 1, compiles)
  {
    if cur.None? {
      FirstIsGood(l.doc, compiles);
    } else if l.SetDoc? {
      GateMeans(l.doc, compiles);
      BumpedIsGood(cur.value, v, Stripped(l.doc), compiles);
    } else {
      MergedPassesGate(cur.value, v, l.doc, compiles);
      BumpedIsGood(cur.value, v, Merge(cur.value, l.doc).value, compiles);
    }
  }

  // --- Every step keeps the invariant ---------------------------------------------------------------

  /** A step that only moves one call. */
  lemma MoveKeepsInv(s: State, c: nat, call: Call, compiles: string -> bool)
    requires Inv(s, compiles)
    requires CallOk(With(s, c, call), c, compiles)
    ensures Inv(With(s, c, call), compiles)
  {
    hide Replays, Gate;
    var s' := With(s, c, call);
    forall d | d in s'.calls ensures CallOk(s', d, compiles) {
      if d != c {
        assert CallOk(s, d, compiles);
      }
    }
  }

  /** A landing by a call that has none yet. */
  lemma LandKeepsInv(s: State, l: Landing, doc: Doc, call: Call, compiles: string -> bool)
    requires Inv(s, compiles) && l.call in s.calls && NoneBy(s.log, l.call)
    requires Gate(l.doc, compiles).Ok? && s.history != [] && Land(Stored(s), l) == Some(doc)
    requires CallOk(Landed(s, l, doc, call), l.call, compiles)
    ensures Inv(Landed(s, l, doc, call), compiles)
  {
    hide Gate, Land;
    LandKeepsLog(s, l, doc, call, compiles);
    LandKeepsCalls(s, l, doc, call, compiles);
  }

  lemma LandKeepsLog(s: State, l: Landing, doc: Doc, call: Call, compiles: string -> bool)
    requires LogOk(s, compiles) && l.call in s.calls && NoneBy(s.log, l.call)
    requires Gate(l.doc, compiles).Ok? && s.history != [] && Land(Stored(s), l) == Some(doc)
    ensures LogOk(Landed(s, l, doc, call), compiles)
  {
    hide Gate, Land, CallOk;
    assert |s.history| == |s.log| + 1;
    LandReplays(s.history, s.log, l, compiles);
    hide Replays;
  }

  lemma LandKeepsCalls(s: State, l: Landing, doc: Doc, call: Call, compiles: string -> bool)
    requires CallsOk(s, compiles)
    requires CallOk(Landed(s, l, doc, call), l.call, compiles)
    ensures CallsOk(Landed(s, l, doc, call), compiles)
  {
    var s' := Landed(s, l, doc, call);
    hide CallOk;
    forall d | d in s'.calls ensures CallOk(s', d, compiles) {
      if d != l.call {
        assert CallOk(s, d, compiles);
        OthersStayOk(s, s', d, compiles);
      }
    }
  }

  lemma LandReplays(history: seq<Option<Doc>>, log: seq<Landing>, l: Landing, compiles: string -> bool)
    requires Replays(history, log, compiles) && Gate(l.doc, compiles).Ok?
    ensures Replays(history + [Land(history[|log|], l)], log + [l], compiles)
  {
    LandIsGood(history[|log|], |log|, l, compiles);
    hide Land, Good, Gate;
  }

  lemma OthersStayOk(s: State, s': State, d: nat, compiles: string -> bool)
    requires d in s.calls && d in s'.calls && s'.calls[d] == s.calls[d] && CallOk(s, d, compiles)
    requires |s'.log| == |s.log| + 1 && s.log == s'.log[..|s.log|] && s'.log[|s.log|].call != d
    requires s.history <= s'.history
    ensures CallOk(s', d, compiles)
  {
    hide Gate;
    assert forall i :: 0 <= i < |s.log| ==> s'.log[i] == s.log[i];
    match s.calls[d]
    case Published(v) =>
      var at :| 0 <= at < v <= |s.log| && s.log[at].call == d;
      assert s'.log[at].call == d;
    case _ =>
  }

  /** The version fetched is still the stored one, or nothing was and is there. */
  predicate Unmoved(s: State, c: nat)
    requires IsHolding(s, c)
  {
    var cur := s.calls[c].cur;
    if cur.None? then Stored(s).None? else Stored(s).Some? && Version(Stored(s).value) == Version(cur.value)
  }

  /** What a call that has fetched knows. */
  lemma HoldingKnows(s: State, c: nat, compiles: string -> bool)
    requires Inv(s, compiles) && IsHolding(s, c)
    ensures var h := s.calls[c];
            && Gate(h.doc, compiles) == Ok(Stripped(h.doc)) && NoneBy(s.log, c) && h.attempt < ATTEMPTS
            && h.since + h.attempt <= h.at <= |s.log| && (h.cur.None? <==> h.at == 0)
            && (h.cur.Some? ==> Good(h.cur, h.at, compiles) && Version(h.cur.value) == Some(h.at))
            && (Unmoved(s, c) <==> h.at == |s.log|) && (Unmoved(s, c) ==> h.cur == Stored(s))
  {
    var h := s.calls[c];
    assert CallOk(s, c, compiles);
    assert h.at > 0 ==> Good(s.history[h.at], h.at, compiles);
    assert |s.log| > 0 ==> Good(s.history[|s.log|], |s.log|, compiles);
    hide CallOk, CallsOk, FilterOf, Land;
  }

  // The three ways an attempt ends.

  lemma Creates(s: State, c: nat, compiles: string -> bool)
    requires IsHolding(s, c) && s.calls[c].cur.None? && Stored(s).None?
    requires Gate(s.calls[c].doc, compiles) == Ok(Stripped(s.calls[c].doc))
    ensures TryLandStep(s, c, compiles) ==
            Landed(s, Append(c, s.calls[c].doc), First(Stripped(s.calls[c].doc)), Appended(1))
  {
    hide Gate, First, Stripped;
  }

  lemma Merges(s: State, c: nat, m: Doc, compiles: string -> bool)
    requires IsHolding(s, c) && s.calls[c].cur.Some? && Stored(s) == s.calls[c].cur
    requires Version(s.calls[c].cur.value).Some?
    requires Merge(s.calls[c].cur.value, s.calls[c].doc) == Ok(m) && Gate(m, compiles) == Ok(m)
    ensures var h := s.calls[c];
            && TryLandStep(s, c, compiles) ==
               Landed(s, Append(c, h.doc), Bumped(h.cur.value, m), Appended(Version(h.cur.value).value + 1))
            && Land(Stored(s), Append(c, h.doc)) == Some(Bumped(h.cur.value, m))
  {
    hide Gate, First, Stripped, Merge, Version;
  }

  lemma Misses(s: State, c: nat, compiles: string -> bool)
    requires IsHolding(s, c) && !Unmoved(s, c) && Gate(s.calls[c].doc, compiles).Ok?
    requires var h := s.calls[c];
             h.cur.Some? ==> Version(h.cur.value).Some? && Merge(h.cur.value, h.doc).Ok?
                             && Gate(Merge(h.cur.value, h.doc).value, compiles).Ok?
    ensures var h := s.calls[c];
            TryLandStep(s, c, compiles) == With(s, c, Looping(h.doc, h.attempt + 1, h.since))
  {
    hide Gate, First, Stripped, Merge, Version;
  }

  lemma AppendedOk(s: State, c: nat, delta: Doc, doc: Doc, compiles: string -> bool)
    ensures CallOk(Landed(s, Append(c, delta), doc, Appended(|s.log| + 1)), c, compiles)
  {
  }

  predicate HasAppended(s: State, c: nat) {
    c in s.calls && s.calls[c].Appended?
  }

  predicate HasLooped(s: State, c: nat) {
    c in s.calls && s.calls[c].Looping?
  }

  /** Landing, when nothing moved since the fetch. */
  lemma UnmovedLands(s: State, c: nat, compiles: string -> bool)
    requires IsHolding(s, c) && Unmoved(s, c) && Inv(s, compiles)
    ensures Inv(TryLandStep(s, c, compiles), compiles) && HasAppended(TryLandStep(s, c, compiles), c)
  {
    hide Inv, TryLandStep, Gate, Land, First, Bumped, CallOk, Unmoved, Good;
    HoldingKnows(s, c, compiles);
    var h := s.calls[c];
    var doc := LandingDoc(s, c, compiles);
    AppendedOk(s, c, h.doc, doc, compiles);
    LandKeepsInv(s, Append(c, h.doc), doc, Appended(|s.log| + 1), compiles);
  }

  // The document that an unmoved attempt lands.
  lemma LandingDoc(s: State, c: nat, compiles: string -> bool) returns (doc: Doc)
    requires IsHolding(s, c) && Unmoved(s, c) && Inv(s, compiles)
    ensures Land(Stored(s), Append(c, s.calls[c].doc)) == Some(doc)
    ensures TryLandStep(s, c, compiles) == Landed(s, Append(c, s.calls[c].doc), doc, Appended(|s.log| + 1))
  {
    hide Inv, TryLandStep, Gate, Merge, Union, FilterOf, Unmoved, Good, Version, Stripped, NoneBy;
    HoldingKnows(s, c, compiles);
    var h := s.calls[c];
    doc := First(Stripped(h.doc));
    if h.cur.None? {
      Creates(s, c, compiles);
    } else {
      MergedPassesGate(h.cur.value, h.at, h.doc, compiles);
      HasNextVersion(h.cur.value, h.at);
      var m := Merge(h.cur.value, h.doc).value;
      doc := Bumped(h.cur.value, m);
      Merges(s, c, m, compiles);
    }
  }

  lemma HasNextVersion(cur: Doc, v: int)
    requires Version(cur) == Some(v)
    ensures NextVersion(cur) == Some(v + 1)
  {
  }

  lemma AgainOk(s: State, c: nat, compiles: string -> bool)
    requires IsHolding(s, c) && Gate(s.calls[c].doc, compiles).Ok? && NoneBy(s.log, c)
    requires var h := s.calls[c]; h.attempt < ATTEMPTS && h.since + h.attempt < |s.log|
    ensures var h := s.calls[c];
            CallOk(With(s, c, Looping(h.doc, h.attempt + 1, h.since)), c, compiles)
  {
    hide Gate, NoneBy;
  }

  // A fetched document that was good can be merged with, and the merge passes the gate.
  lemma HeldMerges(s: State, c: nat, compiles: string -> bool)
    requires IsHolding(s, c) && Inv(s, compiles)
    ensures var h := s.calls[c];
            h.cur.Some? ==> Version(h.cur.value) == Some(h.at) && Merge(h.cur.value, h.doc).Ok?
                            && Gate(Merge(h.cur.value, h.doc).value, compiles).Ok?
  {
    hide Inv, Gate, Merge, Union, FilterOf, Unmoved, Good, Version, Stripped, NoneBy;
    HoldingKnows(s, c, compiles);
    var h := s.calls[c];
    if h.cur.Some? {
      MergedPassesGate(h.cur.value, h.at, h.doc, compiles);
    }
  }

  /** Missing the guard: what landed since the fetch is the attempt's charge. */
  lemma MovedMisses(s: State, c: nat, compiles: string -> bool)
    requires IsHolding(s, c) && !Unmoved(s, c) && Inv(s, compiles)
    ensures Inv(TryLandStep(s, c, compiles), compiles) && HasLooped(TryLandStep(s, c, compiles), c)
  {
    hide Inv, TryLandStep, Gate, Merge, FilterOf, Unmoved, Good, Version, Stripped, NoneBy, CallOk;
    HoldingKnows(s, c, compiles);
    HeldMerges(s, c, compiles);
    Misses(s, c, compiles);
    AgainOk(s, c, compiles);
    var h := s.calls[c];
    MoveKeepsInv(s, c, Looping(h.doc, h.attempt + 1, h.since), compiles);
  }
}
