/** The configuration watcher: version guard, last good filter, readiness
    (internal/cfgsync/cfgsync.go:113-148, fetch.go:43-61). */
module Watchers {
  import opened Wrappers
  import opened Filters

  /** A missing or non-numeric version means the document is ignored. */
  function Version(doc: Doc): Option<int> {
    if "version" in doc && doc["version"].Num? then Some(doc["version"].n) else None
  }

  /** What a watcher knows: the highest version accepted, the live filter, and whether Ready is closed. */
  datatype Watch = Watch(last: int, live: Option<Filter>, ready: bool)

  /** Whether the version guard lets a delivered document through. */
  predicate Accepts(w: Watch, doc: Option<Doc>) {
    doc.Some? && Version(doc.value).Some? && Version(doc.value).value > w.last
  }

  function Observed(w: Watch, doc: Option<Doc>, compiles: string -> bool): Watch {
    if !Accepts(w, doc) then w
    else Watch(Version(doc.value).value, Applied(w.live, doc.value, compiles),
               w.ready || AppliesCleanly(doc.value, compiles))
  }

  class Watcher {
    const registry: Registry
    const parser: Parser
    var lastVersion: int
    var ready: bool

    constructor (registry: Registry, parser: Parser)
      ensures this.registry == registry && this.parser == parser
      ensures lastVersion == 0 && !ready
    {
      this.registry, this.parser := registry, parser;
      lastVersion, ready := 0, false;
    }

    ghost predicate Valid()
      reads this, registry
    {
      registry.Valid() && registry.appliers == map["filter" := parser]
    }

    ghost function State(): Watch
      reads this, parser
    {
      Watch(lastVersion, parser.live, ready)
    }

    /** The guarded entry point of every delivery; an error is reported, never fatal. */
    method Observe(doc: Option<Doc>, compiles: string -> bool) returns (ok: bool)
      requires Valid()
      modifies this`lastVersion, this`ready, parser
      ensures Valid() && State() == Observed(old(State()), doc, compiles)
      ensures ok <==> (old(Accepts(State(), doc)) ==> AppliesCleanly(doc.value, compiles))
    {
      if doc.None? {
        return true;
      }
      var version := Version(doc.value);
      if version.None? {
        return true;
      }
      if version.value <= lastVersion {
        return true;
      }
      lastVersion := version.value;
      ok := registry.Apply(doc.value, compiles);
      if ok {
        ready := true;
      }
    }

    /** A whole run of deliveries, in whatever order and multiplicity the backend hands them over. */
    method ObserveAll(docs: seq<Option<Doc>>, compiles: string -> bool)
      requires Valid()
      modifies this`lastVersion, this`ready, parser
      ensures Valid() && State() == Run(old(State()), docs, compiles)
    {
      ghost var start := State();
      for i := 0 to |docs|
        invariant Valid() && Run(State(), docs[i..], compiles) == Run(start, docs, compiles)
      {
        assert docs[i..][1..] == docs[i + 1..];
        var _ := Observe(docs[i], compiles);
      }
    }
  }

  // --- Whole runs ------------------------------------------------------------------------------

  function Run(w: Watch, docs: seq<Option<Doc>>, compiles: string -> bool): Watch
    decreases |docs|
  {
    if docs == [] then w else Run(Observed(w, docs[0], compiles), docs[1..], compiles)
  }

  /** The versions a run accepts, in order. */
  function AcceptedVersions(w: Watch, docs: seq<Option<Doc>>, compiles: string -> bool): seq<int>
    decreases |docs|
  {
    if docs == [] then []
    else (if Accepts(w, docs[0]) then [Version(docs[0].value).value] else [])
         + AcceptedVersions(Observed(w, docs[0], compiles), docs[1..], compiles)
  }

  /** Accepted versions strictly increase: no rollback and no redundant swap. */
  lemma {:induction false} VersionsIncrease(w: Watch, docs: seq<Option<Doc>>, compiles: string -> bool)
    ensures var vs := AcceptedVersions(w, docs, compiles);
            && (forall i :: 0 <= i < |vs| ==> w.last < vs[i])
            && (forall i, j :: 0 <= i < j < |vs| ==> vs[i] < vs[j])
            && Run(w, docs, compiles).last == if vs == [] then w.last else vs[|vs| - 1]
    decreases |docs|
  {
    if docs != [] {
      VersionsIncrease(Observed(w, docs[0], compiles), docs[1..], compiles);
    }
  }

  /** The document that a run accepts at place i, if it does. */
  predicate AcceptsAt(w: Watch, docs: seq<Option<Doc>>, i: nat, compiles: string -> bool)
    requires i < |docs|
  {
    Accepts(Run(w, docs[..i], compiles), docs[i])
  }

  lemma {:induction false} RunSplit(w: Watch, a: seq<Option<Doc>>, b: seq<Option<Doc>>, compiles: string -> bool)
    ensures Run(w, a + b, compiles) == Run(Run(w, a, compiles), b, compiles)
    decreases |a|
  {
    if a == [] {
      assert a + b == b;
    } else {
      assert (a + b)[1..] == a[1..] + b;
      RunSplit(Observed(w, a[0], compiles), a[1..], b, compiles);
    }
  }

  lemma RunSnoc(w: Watch, docs: seq<Option<Doc>>, i: nat, compiles: string -> bool)
    requires i < |docs|
    ensures Run(w, docs[..i + 1], compiles) == Observed(Run(w, docs[..i], compiles), docs[i], compiles)
  {
    hide Observed;
    RunSplit(w, docs[..i], [docs[i]], compiles);
    assert docs[..i + 1] == docs[..i] + [docs[i]] && [docs[i]][1..] == [];
  }

  /** Ready is closed exactly when some delivered document has been accepted and applied without error. */
  lemma {:induction false} ReadyMeansApplied(w: Watch, docs: seq<Option<Doc>>, compiles: string -> bool)
    ensures Run(w, docs, compiles).ready <==>
            w.ready || exists i :: 0 <= i < |docs| && AcceptsAt(w, docs, i, compiles)
                                   && AppliesCleanly(docs[i].value, compiles)
    decreases |docs|
  {
    hide AppliesCleanly, Applied;
    if docs == [] {
    } else {
      var n := |docs| - 1;
      var init := docs[..n];
      ReadyMeansApplied(w, init, compiles);
      RunSnoc(w, docs, n, compiles);
      assert docs[..n + 1] == docs;
      forall i | 0 <= i < n
        ensures init[i] == docs[i] && (AcceptsAt(w, init, i, compiles) <==> AcceptsAt(w, docs, i, compiles))
      {
        assert init[..i] == docs[..i];
      }
      assert Run(w, docs, compiles).ready <==>
             Run(w, init, compiles).ready
             || (AcceptsAt(w, docs, n, compiles) && AppliesCleanly(docs[n].value, compiles));
    }
  }

  // --- Convergence -----------------------------------------------------------------------------------

  /** Every delivered document of the top version is this one, and nothing above it is delivered. */
  predicate HasTop(docs: seq<Option<Doc>>, top: Doc) {
    && Some(top) in docs && Version(top).Some?
    && forall d :: d in docs && d.Some? && Version(d.value).Some? ==>
         Version(d.value).value <= Version(top).value
         && (Version(d.value) == Version(top) ==> d.value == top)
  }

  predicate NoneAbove(docs: seq<Option<Doc>>, v: int) {
    forall d :: d in docs && d.Some? && Version(d.value).Some? ==> Version(d.value).value <= v
  }

  lemma {:induction false} NothingAboveNothingChanges(w: Watch, docs: seq<Option<Doc>>, compiles: string -> bool)
    requires NoneAbove(docs, w.last)
    ensures Run(w, docs, compiles) == w
    decreases |docs|
  {
    if docs != [] {
      assert docs[0] in docs;
      NothingAboveNothingChanges(w, docs[1..], compiles);
    }
  }

  /** After any deliveries that contain the highest version, when that one carries a good filter, the live
      filter is that one. */
  lemma {:induction false} EndsAtTop(w: Watch, docs: seq<Option<Doc>>, top: Doc, compiles: string -> bool)
    requires HasTop(docs, top) && w.last < Version(top).value && FilterOf(top, compiles).Some?
    ensures Run(w, docs, compiles).last == Version(top).value
    ensures Run(w, docs, compiles).live == FilterOf(top, compiles)
    decreases |docs|
  {
    hide FilterOf, AppliesCleanly;
    var w' := Observed(w, docs[0], compiles);
    assert docs[0] in docs;
    if docs[0] == Some(top) {
      NothingAboveNothingChanges(w', docs[1..], compiles);
    } else {
      EndsAtTop(w', docs[1..], top, compiles);
    }
  }

  /** Convergence: any two delivery sequences, with any reordering, duplication or loss, that both contain the
      highest version, when that one is valid, end with the same live filter. */
  lemma Converges(w: Watch, w': Watch, docs: seq<Option<Doc>>, docs': seq<Option<Doc>>, top: Doc,
                  compiles: string -> bool)
    requires HasTop(docs, top) && HasTop(docs', top)
    requires w.last < Version(top).value && w'.last < Version(top).value && FilterOf(top, compiles).Some?
    ensures Run(w, docs, compiles).live == Run(w', docs', compiles).live
    ensures Run(w, docs, compiles).last == Run(w', docs', compiles).last
  {
    EndsAtTop(w, docs, top, compiles);
    EndsAtTop(w', docs', top, compiles);
  }

  // --- Documents that are refused ------------------------------------------------------------------------

  /** A document whose application reports an error leaves every live filter as it was exactly when its own
      filter is bad; with a good filter beside a stray field the filter is swapped in all the same. */
  lemma RefusedKeepsLiveIff(doc: Doc, compiles: string -> bool)
    requires Version(doc).Some? && !AppliesCleanly(doc, compiles)
    ensures (forall w :: Observed(w, Some(doc), compiles).live == w.live) <==> FilterOf(doc, compiles).None?
    ensures FilterOf(doc, compiles).Some? ==> HasStray(doc)
  {
    if FilterOf(doc, compiles).Some? {
      var w := Watch(Version(doc).value - 1, None, false);
      assert Observed(w, Some(doc), compiles).live != w.live;
    }
  }

  /** Such a document: the filter it carries goes live, yet the watcher reports an error and stays unready. */
  lemma StrayFieldStillSwaps(compiles: string -> bool)
    ensures var doc: Doc := map["version" := Num(1), "filter" := Sub(map[]), "limits" := Null];
            var w := Watch(0, Some(Filter(["a"], [])), false);
            && !AppliesCleanly(doc, compiles)
            && Observed(w, Some(doc), compiles) == Watch(1, Some(Filter([], [])), false)
  {
    var doc: Doc := map["version" := Num(1), "filter" := Sub(map[]), "limits" := Null];
    assert "limits" in doc && !Reserved("limits") && "limits" != "filter";
    var empty := seq(0, i requires 0 <= i < 0 => "");
    assert FilterIn(map[], compiles) == Some(Filter([], []));
  }

  /** A document with no filter at all closes Ready without having applied anything. */
  lemma NoFilterClosesReady(w: Watch, v: int, compiles: string -> bool)
    requires w.last < v
    ensures Observed(w, Some(map["version" := Num(v)]), compiles) == Watch(v, w.live, true)
  {
  }
}
