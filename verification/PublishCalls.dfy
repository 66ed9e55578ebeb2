/** The two publish calls as they run, on whatever is stored, with the other publishers' writes landing between
    their database calls (internal/cfgsync/publish.go:53-182). */
module PublishCalls {
  import opened Wrappers
  import opened Filters
  import opened Watchers
  import opened Publish
  import opened PublishSteps

  // --- Writes of other publishers ------------------------------------------------------------

  /** Why an append stops on the document it has fetched: no numeric version, a filter that cannot be merged, or
      a merge that does not pass the gate. */
  predicate RefusesAt(seen: Option<Doc>, delta: Doc, compiles: string -> bool) {
    seen.Some? && (Version(seen.value).None? || Merge(seen.value, delta).Err?
                   || Gate(Merge(seen.value, delta).value, compiles).Err?)
  }

  /** A write that another publisher can land on this document. */
  predicate Lands(cur: Option<Doc>, l: Landing, compiles: string -> bool) {
    && Gate(l.doc, compiles).Ok?
    && if l.SetDoc? then cur.Some? ==> NextVersion(cur.value).Some? else !RefusesAt(cur, l.doc, compiles)
  }

  function LandAll(cur: Option<Doc>, ls: seq<Landing>): Option<Doc>
    decreases |ls|
  {
    if ls == [] then cur else LandAll(Land(cur, ls[0]), ls[1..])
  }

  predicate AllLand(cur: Option<Doc>, ls: seq<Landing>, compiles: string -> bool)
    decreases |ls|
  {
    ls == [] || (Lands(cur, ls[0], compiles) && AllLand(Land(cur, ls[0]), ls[1..], compiles))
  }

  lemma {:induction false} LandAllSplit(cur: Option<Doc>, a: seq<Landing>, b: seq<Landing>, compiles: string -> bool)
    ensures LandAll(cur, a + b) == LandAll(LandAll(cur, a), b)
    ensures AllLand(cur, a + b, compiles) <==> AllLand(cur, a, compiles) && AllLand(LandAll(cur, a), b, compiles)
    decreases |a|
  {
    hide Land, Lands;
    if a == [] {
      assert a + b == b;
    } else {
      assert (a + b)[1..] == a[1..] + b;
      LandAllSplit(Land(cur, a[0]), a[1..], b, compiles);
    }
  }

  function VersionOf(cur: Option<Doc>): int {
    if cur.None? || Version(cur.value).None? then 0 else Version(cur.value).value
  }

  /** A landed write leaves a document with a numeric version, one more than before if that was numeric. */
  lemma LandMoves(cur: Option<Doc>, l: Landing, compiles: string -> bool)
    requires Lands(cur, l, compiles)
    ensures Land(cur, l).Some? && Version(Land(cur, l).value).Some?
    ensures cur.None? || Version(cur.value).Some? ==> VersionOf(Land(cur, l)) == VersionOf(cur) + 1
  {
    hide Gate, Merge;
  }

  lemma {:induction false} LandAllMoves(cur: Option<Doc>, ls: seq<Landing>, compiles: string -> bool)
    requires AllLand(cur, ls, compiles)
    ensures ls != [] ==> LandAll(cur, ls).Some? && Version(LandAll(cur, ls).value).Some?
    ensures cur.None? || Version(cur.value).Some? ==> VersionOf(LandAll(cur, ls)) == VersionOf(cur) + |ls|
    decreases |ls|
  {
    if ls != [] {
      LandMoves(cur, ls[0], compiles);
      hide Land, Lands, Version;
      LandAllMoves(Land(cur, ls[0]), ls[1..], compiles);
    }
  }

  /** Nothing stored, or a good document of some version: what the gate alone ever stores. */
  predicate Sound(cur: Option<Doc>, compiles: string -> bool) {
    cur.Some? ==> Version(cur.value).Some? && Version(cur.value).value >= 1
                  && Good(cur, Version(cur.value).value, compiles)
  }

  /** On such a document no gated delta is ever refused. */
  lemma SoundNeverRefuses(cur: Option<Doc>, delta: Doc, compiles: string -> bool)
    requires Sound(cur, compiles) && Gate(delta, compiles).Ok?
    ensures !RefusesAt(cur, delta, compiles)
  {
    if cur.Some? {
      MergedPassesGate(cur.value, Version(cur.value).value, delta, compiles);
    }
    hide Good, Gate, Merge;
  }

  lemma {:induction false} LandAllIsSound(cur: Option<Doc>, ls: seq<Landing>, compiles: string -> bool)
    requires Sound(cur, compiles) && AllLand(cur, ls, compiles)
    ensures Sound(LandAll(cur, ls), compiles)
    decreases |ls|
  {
    if ls != [] {
      LandIsSound(cur, ls[0], compiles);
      hide Sound, Land, Lands;
      LandAllIsSound(Land(cur, ls[0]), ls[1..], compiles);
    }
  }

  lemma LandIsSound(cur: Option<Doc>, l: Landing, compiles: string -> bool)
    requires Sound(cur, compiles) && Gate(l.doc, compiles).Ok?
    ensures Sound(Land(cur, l), compiles)
  {
    LandIsGood(cur, VersionOf(cur), l, compiles);
    hide Land, Gate, FilterOf;
  }

  // --- The windows of an append ------------------------------------------------------------------

  /** What other publishers land during each attempt, before its fetch and between its fetch and its write. */
  datatype Window = Window(before: seq<Landing>, during: seq<Landing>)

  /** All that others land in the first n windows. */
  function Foreign(ws: seq<Window>, n: nat): seq<Landing>
    requires n <= |ws|
  {
    if n == 0 then [] else Foreign(ws, n - 1) + (ws[n - 1].before + ws[n - 1].during)
  }

  /** The document when attempt n begins, and the one it fetches. */
  function ReachedAt(was: Option<Doc>, ws: seq<Window>, n: nat): Option<Doc>
    requires n <= |ws|
  {
    LandAll(was, Foreign(ws, n))
  }

  function SeenAt(was: Option<Doc>, ws: seq<Window>, n: nat): Option<Doc>
    requires n < |ws|
  {
    LandAll(ReachedAt(was, ws, n), ws[n].before)
  }

  predicate WindowsLand(was: Option<Doc>, ws: seq<Window>, compiles: string -> bool) {
    AllLand(was, Foreign(ws, |ws|), compiles)
  }

  lemma {:induction false} ForeignLands(was: Option<Doc>, ws: seq<Window>, n: nat, compiles: string -> bool)
    requires n <= |ws| && WindowsLand(was, ws, compiles)
    ensures AllLand(was, Foreign(ws, n), compiles)
    decreases |ws| - n
  {
    hide LandAll, AllLand;
    if n < |ws| {
      ForeignLands(was, ws, n + 1, compiles);
      LandAllSplit(was, Foreign(ws, n), ws[n].before + ws[n].during, compiles);
    }
  }

  /** What others land during attempt n lands on what has been reached, and leads to the next attempt. */
  lemma WindowLands(was: Option<Doc>, ws: seq<Window>, n: nat, compiles: string -> bool)
    requires n < |ws| && WindowsLand(was, ws, compiles)
    ensures AllLand(ReachedAt(was, ws, n), ws[n].before + ws[n].during, compiles)
    ensures ReachedAt(was, ws, n + 1) == LandAll(SeenAt(was, ws, n), ws[n].during)
  {
    hide LandAll, AllLand;
    ForeignLands(was, ws, n + 1, compiles);
    LandAllSplit(was, Foreign(ws, n), ws[n].before + ws[n].during, compiles);
    LandAllSplit(ReachedAt(was, ws, n), ws[n].before, ws[n].during, compiles);
  }

  /** The first n attempts missed: none was refused, and another publisher's write fell between the fetch and the
      write of each. */
  predicate Missed(was: Option<Doc>, ws: seq<Window>, delta: Doc, n: nat, compiles: string -> bool) {
    && n <= |ws|
    && forall k :: 0 <= k < n ==> ws[k].during != [] && !RefusesAt(SeenAt(was, ws, k), delta, compiles)
  }

  /** Each miss is charged to a different write of another publisher. */
  lemma {:induction false} MissesAreCharged(was: Option<Doc>, ws: seq<Window>, delta: Doc, n: nat,
                                            compiles: string -> bool)
    requires Missed(was, ws, delta, n, compiles)
    ensures |Foreign(ws, n)| >= n
    decreases n
  {
    hide SeenAt, RefusesAt;
    if n > 0 {
      assert ws[n - 1].during != [];
      MissesAreCharged(was, ws, delta, n - 1, compiles);
    }
  }

  // --- The calls ---------------------------------------------------------------------------------------

  datatype Outcome = Stored(version: int) | Refused | Contended | LostReply

  datatype Round = Landed(version: int) | Moved | Stops

  /** How an append ends.  Refused: by the first gate, at once, or after some misses by what it then fetched; only
      the others have written.  Contended: every attempt missed; again only the others have written.  Stored: after
      some misses, one more write on top of all that landed before it, whose version is returned. */
  predicate AppendEnds(delta: Doc, ws: seq<Window>, was: Option<Doc>, now: Option<Doc>, r: Outcome, missed: nat,
                       compiles: string -> bool)
  {
    match r
    case Refused =>
      || (Gate(delta, compiles).Err? && missed == 0 && now == was)
      || (&& Gate(delta, compiles).Ok? && missed < |ws| && Missed(was, ws, delta, missed, compiles)
          && RefusesAt(SeenAt(was, ws, missed), delta, compiles) && now == ReachedAt(was, ws, missed + 1))
    case Contended =>
      && Gate(delta, compiles).Ok? && missed == |ws| && Missed(was, ws, delta, missed, compiles)
      && now == ReachedAt(was, ws, missed)
    case Stored(version) =>
      && Gate(delta, compiles).Ok? && missed < |ws| && Missed(was, ws, delta, missed, compiles)
      && !RefusesAt(SeenAt(was, ws, missed), delta, compiles) && ws[missed].during == []
      && now == Land(SeenAt(was, ws, missed), Append(0, delta)) && version == VersionOf(now)
    case LostReply => false
  }

  class ConfigStore {
    var doc: Option<Doc>

    constructor (doc: Option<Doc>)
      ensures this.doc == doc
    {
      this.doc := doc;
    }

    // One statement each: the atomic operations of the database.

    method FindOne() returns (d: Option<Doc>)
      ensures d == doc
    {
      d := doc;
    }

    method InsertOne(d: Doc) returns (ok: bool)
      modifies this
      ensures ok <==> old(doc).None?
      ensures doc == if ok then Some(d) else old(doc)
    {
      ok := doc.None?;
      if ok {
        doc := Some(d);
      }
    }

    method UpdateAtVersion(version: int, content: Doc) returns (matched: bool)
      modifies this
      ensures matched <==> old(doc).Some? && Version(old(doc).value) == Some(version)
      ensures doc == if matched then Some(Bumped(old(doc).value, content)) else old(doc)
    {
      matched := doc.Some? && Version(doc.value) == Some(version);
      if matched {
        doc := Some(Bumped(doc.value, content));
      }
    }

    method UpsertOne(content: Doc) returns (ok: bool)
      modifies this
      ensures ok <==> (old(doc).Some? ==> NextVersion(old(doc).value).Some?)
      ensures doc == if !ok then old(doc)
                     else Some(if old(doc).Some? then Bumped(old(doc).value, content) else First(content))
    {
      ok := doc.None? || NextVersion(doc.value).Some?;
      if ok {
        doc := Some(if doc.Some? then Bumped(doc.value, content) else First(content));
      }
    }

    method Others(ls: seq<Landing>)
      modifies this
      ensures doc == LandAll(old(doc), ls)
    {
      for i := 0 to |ls|
        invariant LandAll(doc, ls[i..]) == LandAll(old(doc), ls)
      {
        assert ls[i..][1..] == ls[i + 1..];
        doc := Land(doc, ls[i]);
      }
    }

    /** Set mode: one atomic upsert, then a read that may already see later writes, or fail. */
    method Publish(delta: Doc, later: seq<Landing>, readFails: bool, compiles: string -> bool) returns (r: Outcome)
      requires AllLand(Land(doc, SetDoc(0, delta)), later, compiles)
      modifies this
      ensures r.Refused? <==> !Lands(old(doc), SetDoc(0, delta), compiles)
      ensures r.Refused? ==> doc == old(doc)
      ensures !r.Refused? ==>
                && doc == LandAll(Land(old(doc), SetDoc(0, delta)), later)
                && r == (if readFails then LostReply else Stored(VersionOf(doc)))
                && VersionOf(doc) == VersionOf(Land(old(doc), SetDoc(0, delta))) + |later|
    {
      var gated := ValidatePublishDoc(delta, compiles);
      if gated.Err? {
        return Refused;
      }
      var ok := UpsertOne(gated.value);
      if !ok {
        return Refused;
      }
      assert doc == Land(old(doc), SetDoc(0, delta));
      LandMoves(old(doc), SetDoc(0, delta), compiles);
      LandAllMoves(doc, later, compiles);
      hide Gate, Land, Bumped, First, Stripped, LandAll;
      Others(later);
      if readFails {
        return LostReply;
      }
      var back := FindOne();
      return Stored(if back.None? || Version(back.value).None? then 0 else Version(back.value).value);
    }

    /** One round of the append loop: fetch, merge, and write under the version guard. */
    method Attempt(delta: Doc, w: Window, compiles: string -> bool) returns (r: Round)
      requires Gate(delta, compiles).Ok? && AllLand(doc, w.before + w.during, compiles)
      modifies this
      ensures var seen := LandAll(old(doc), w.before);
              && (r.Stops? <==> RefusesAt(seen, delta, compiles))
              && (r.Landed? ==> w.during == [] && doc == Land(seen, Append(0, delta)) && r.version == VersionOf(doc))
              && (r.Moved? ==> w.during != [])
              && (!r.Landed? ==> doc == LandAll(seen, w.during))
    {
      hide Gate, Merge, Stripped, LandAll, AllLand, First, Version, NextVersion;
      NothingLands(LandAll(doc, w.before));
      LandAllSplit(doc, w.before, w.during, compiles);
      Others(w.before);
      var cur := FindOne();
      LandAllMoves(cur, w.during, compiles);
      Others(w.during);
      if cur.None? {
        var fields := ValidatePublishDoc(delta, compiles);
        GateStrips(delta, compiles);
        FirstVersion(delta);
        var ok := InsertOne(First(fields.value));
        return if ok then Landed(1) else Moved;
      }
      var curVersion := Version(cur.value);
      if curVersion.None? {
        return Stops;
      }
      VersionBumps(cur.value, curVersion.value);
      var merged := MergePublishDocs(cur.value, delta);
      if merged.Err? {
        return Stops;
      }
      var fields := ValidatePublishDoc(merged.value, compiles);
      if fields.Err? {
        return Stops;
      }
      GateStrips(merged.value, compiles);
      MergeStrips(cur.value, delta);
      var matched := UpdateAtVersion(curVersion.value, fields.value);
      return if matched then Landed(curVersion.value + 1) else Moved;
    }

    /** Append mode: fetch, merge, write under the version guard, and go round again on a miss.  `missed` is
        the number of attempts that missed. */
    method PublishAppend(delta: Doc, windows: seq<Window>, compiles: string -> bool)
      returns (r: Outcome, missed: nat)
      requires |windows| == ATTEMPTS && WindowsLand(doc, windows, compiles)
      modifies this
      ensures AppendEnds(delta, windows, old(doc), doc, r, missed, compiles)
      ensures Sound(old(doc), compiles) ==> (r.Refused? <==> Gate(delta, compiles).Err?)
    {
      var early := ValidatePublishDoc(delta, compiles);
      if early.Err? {
        EndsEarly(doc, windows, delta, compiles);
        return Refused, 0;
      }
      missed := 0;
      ghost var was := doc;
      NoneMissed(was, windows, delta, compiles);
      hide Foreign, LandAll, AllLand, WindowsLand, Sound, Gate, Land;
      hide VersionOf, ReachedAt, RefusesAt, Missed, AppendEnds;
      for attempt := 0 to ATTEMPTS
        invariant missed == attempt && Missed(was, windows, delta, attempt, compiles)
        invariant doc == ReachedAt(was, windows, attempt)
      {
        var w := windows[attempt];
        WindowLands(was, windows, attempt, compiles);
        var round := Attempt(delta, w, compiles);
        match round {
          case Landed(version) =>
            EndsStored(was, windows, delta, attempt, doc, version, compiles);
            return Stored(version), attempt;
          case Stops =>
            if Sound(was, compiles) {
              NeverRefused(was, windows, attempt, delta, compiles);
            }
            EndsRefused(was, windows, delta, attempt, compiles);
            return Refused, attempt;
          case Moved =>
            OneMoreMissed(was, windows, delta, attempt, compiles);
            missed := attempt + 1;
        }
      }
      EndsContended(was, windows, delta, compiles);
      return Contended, ATTEMPTS;
    }
  }

  // The ways through the append loop.

  lemma NoneMissed(was: Option<Doc>, ws: seq<Window>, delta: Doc, compiles: string -> bool)
    ensures Missed(was, ws, delta, 0, compiles) && ReachedAt(was, ws, 0) == was
  {
  }

  lemma OneMoreMissed(was: Option<Doc>, ws: seq<Window>, delta: Doc, n: nat, compiles: string -> bool)
    requires n < |ws| && Missed(was, ws, delta, n, compiles)
    requires ws[n].during != [] && !RefusesAt(SeenAt(was, ws, n), delta, compiles)
    ensures Missed(was, ws, delta, n + 1, compiles)
  {
    hide SeenAt, RefusesAt;
  }

  lemma EndsEarly(was: Option<Doc>, ws: seq<Window>, delta: Doc, compiles: string -> bool)
    requires Gate(delta, compiles).Err?
    ensures AppendEnds(delta, ws, was, was, Refused, 0, compiles)
  {
    hide Gate;
  }

  lemma EndsRefused(was: Option<Doc>, ws: seq<Window>, delta: Doc, n: nat, compiles: string -> bool)
    requires n < |ws| && Gate(delta, compiles).Ok? && Missed(was, ws, delta, n, compiles)
    requires RefusesAt(SeenAt(was, ws, n), delta, compiles)
    ensures AppendEnds(delta, ws, was, ReachedAt(was, ws, n + 1), Refused, n, compiles)
  {
    hide Gate, Missed, RefusesAt, SeenAt, ReachedAt;
  }

  lemma EndsContended(was: Option<Doc>, ws: seq<Window>, delta: Doc, compiles: string -> bool)
    requires Gate(delta, compiles).Ok? && Missed(was, ws, delta, |ws|, compiles)
    ensures AppendEnds(delta, ws, was, ReachedAt(was, ws, |ws|), Contended, |ws|, compiles)
  {
    hide Gate, Missed, ReachedAt;
  }

  lemma EndsStored(was: Option<Doc>, ws: seq<Window>, delta: Doc, n: nat, now: Option<Doc>, version: int,
                   compiles: string -> bool)
    requires n < |ws| && Gate(delta, compiles).Ok? && Missed(was, ws, delta, n, compiles) && ws[n].during == []
    requires !RefusesAt(SeenAt(was, ws, n), delta, compiles)
    requires now == Land(SeenAt(was, ws, n), Append(0, delta)) && version == VersionOf(now)
    ensures AppendEnds(delta, ws, was, now, Stored(version), n, compiles)
  {
    hide Gate, Missed, RefusesAt, SeenAt, Land, VersionOf;
  }

  lemma NothingLands(cur: Option<Doc>)
    ensures LandAll(cur, []) == cur
  {
  }

  lemma FirstVersion(delta: Doc)
    ensures Version(First(Stripped(delta))) == Some(1)
  {
  }

  lemma VersionBumps(cur: Doc, v: int)
    requires Version(cur) == Some(v)
    ensures NextVersion(cur) == Some(v + 1)
    ensures forall content :: Version(Bumped(cur, content)) == Some(v + 1)
  {
  }

  lemma GateStrips(doc: Doc, compiles: string -> bool)
    requires Gate(doc, compiles).Ok?
    ensures Gate(doc, compiles).value == Stripped(doc)
  {
  }

  /** A merge has no reserved field left. */
  lemma MergeStrips(cur: Doc, delta: Doc)
    requires Merge(cur, delta).Ok?
    ensures Stripped(Merge(cur, delta).value) == Merge(cur, delta).value
  {
    hide MergeField;
  }

  /** Where only gated documents were ever stored, no attempt is refused by what it fetches. */
  lemma NeverRefused(was: Option<Doc>, ws: seq<Window>, n: nat, delta: Doc, compiles: string -> bool)
    requires n < |ws| && WindowsLand(was, ws, compiles) && Sound(was, compiles) && Gate(delta, compiles).Ok?
    ensures !RefusesAt(SeenAt(was, ws, n), delta, compiles)
  {
    hide LandAll, AllLand, WindowsLand, Sound, Gate, RefusesAt;
    ForeignLands(was, ws, n, compiles);
    WindowLands(was, ws, n, compiles);
    LandAllSplit(ReachedAt(was, ws, n), ws[n].before, ws[n].during, compiles);
    LandAllIsSound(was, Foreign(ws, n), compiles);
    LandAllIsSound(ReachedAt(was, ws, n), ws[n].before, compiles);
    SoundNeverRefuses(SeenAt(was, ws, n), delta, compiles);
  }
}
