/** What becomes of one line, and how it is counted (internal/process/core/processor.go).

    Parsing, filtering, identity resolution and model building are given by a function from whatever those
    stages read (filter, identity store, clock) to the line's fate; this part is the order of the stages and
    the counters.
 */
module Processing {
  import opened Wrappers

  /** A stage returns or panics. */
  datatype Ran<+T> = Returned(value: T) | Panicked

  datatype Category = UserRecord | EventRecord

  datatype FilterRun = FilterRun(keep: bool, failed: bool)

  /** What each stage does with a line, were it reached.  An empty filter is not run. */
  datatype Fate<M> = Fate(
    parse: Ran<Option<Category>>, filter: Ran<Option<FilterRun>>, resolve: Ran<Option<int>>,
    build: Ran<M>, deadLetter: M)

  datatype Kind = Event | User | Filtered | ParseError | IdentityError

  datatype LineResult<M> = LineResult(kind: Kind, model: Option<M>)

  datatype Counts = Counts(
    lines: nat, parseErrors: nat, parsed: nat, filterErrors: nat, filtered: nat,
    identityErrors: nat, userWrites: nat, eventWrites: nat, deadLetters: nat)

  const ZERO := Counts(0, 0, 0, 0, 0, 0, 0, 0, 0)

  /** The lines accounted for: written, dropped by the filter, or dead-lettered. */
  function Settled(c: Counts): nat {
    c.userWrites + c.eventWrites + c.filtered + c.deadLetters
  }

  // --- Which stages run ------------------------------------------------------------------------

  predicate Parses<M>(f: Fate<M>) {
    f.parse.Returned? && f.parse.value.Some?
  }

  predicate Drops<M>(f: Fate<M>) {
    Parses(f) && f.filter.Returned? && f.filter.value.Some? && !f.filter.value.value.keep
  }

  predicate PassesFilter<M>(f: Fate<M>) {
    Parses(f) && f.filter.Returned? && !Drops(f)
  }

  predicate Builds<M>(f: Fate<M>) {
    PassesFilter(f) && f.resolve.Returned? && f.resolve.value.Some?
  }

  /** The line panics while its model is built, after it has been counted as a write. */
  predicate PanicsBuilding<M>(f: Fate<M>) {
    Builds(f) && f.build.Panicked?
  }

  function KindOf<M>(f: Fate<M>): Kind {
    if Builds(f) && f.build.Returned? then (if f.parse.value.value.UserRecord? then User else Event)
    else if Drops(f) then Filtered
    else if PassesFilter(f) && f.resolve == Returned(None) then IdentityError
    else ParseError
  }

  function ResultOf<M>(f: Fate<M>): LineResult<M> {
    match KindOf(f)
    case User => LineResult(User, Some(f.build.value))
    case Event => LineResult(Event, Some(f.build.value))
    case Filtered => LineResult(Filtered, None)
    case kind => LineResult(kind, Some(f.deadLetter))
  }

  /** What a line comes to, by the first stage that stops it: a parse failure or any panic is a parse error, then the
      filter, then an unresolved user; else it is written to its record's collection. */
  lemma StagesDecide<M>(f: Fate<M>)
    ensures var r := ResultOf(f);
            match f.parse
            case Panicked => r == LineResult(ParseError, Some(f.deadLetter))
            case Returned(None) => r == LineResult(ParseError, Some(f.deadLetter))
            case Returned(Some(category)) =>
              if f.filter.Panicked? then r == LineResult(ParseError, Some(f.deadLetter))
              else if f.filter.value.Some? && !f.filter.value.value.keep then r == LineResult(Filtered, None)
              else if f.resolve.Panicked? then r == LineResult(ParseError, Some(f.deadLetter))
              else if f.resolve.value.None? then r == LineResult(IdentityError, Some(f.deadLetter))
              else if f.build.Panicked? then r == LineResult(ParseError, Some(f.deadLetter))
              else if category == UserRecord then r == LineResult(User, Some(f.build.value))
              else r == LineResult(Event, Some(f.build.value))
  {
  }

  function One(b: bool): nat {
    if b then 1 else 0
  }

  /** The counters move by exactly what the line was, and a panic while building counts the line twice. */
  ghost predicate CountedOnce<M>(was: Counts, now: Counts, f: Fate<M>) {
    var k, late := KindOf(f), PanicsBuilding(f);
    var user := f.parse.Returned? && f.parse.value == Some(UserRecord);
    && now.lines == was.lines + 1
    && now.parseErrors == was.parseErrors + One(k == ParseError)
    && now.parsed == was.parsed + One(Parses(f))
    && now.filterErrors == was.filterErrors
                           + One(Parses(f) && f.filter.Returned? && f.filter.value.Some? && f.filter.value.value.failed)
    && now.filtered == was.filtered + One(k == Filtered)
    && now.identityErrors == was.identityErrors + One(k == IdentityError)
    && now.userWrites == was.userWrites + One(k == User || (late && user))
    && now.eventWrites == was.eventWrites + One(k == Event || (late && !user))
    && now.deadLetters == was.deadLetters + One(k == ParseError || k == IdentityError)
  }

  function WithWrite(c: Counts, category: Category): Counts {
    if category.UserRecord? then c.(userWrites := c.userWrites + 1) else c.(eventWrites := c.eventWrites + 1)
  }

  function WithParseError(c: Counts): Counts {
    c.(parseErrors := c.parseErrors + 1, deadLetters := c.deadLetters + 1)
  }

  /** The counters once the filter has let a line through. */
  function TallyWrite<M>(c: Counts, f: Fate<M>): Counts
    requires Parses(f)
  {
    if f.resolve.Panicked? then WithParseError(c)
    else if f.resolve.value.None? then c.(identityErrors := c.identityErrors + 1, deadLetters := c.deadLetters + 1)
    else
      var counted := WithWrite(c, f.parse.value.value);
      if f.build.Panicked? then WithParseError(counted) else counted
  }

  /** The counters once a line has parsed. */
  function TallyParsed<M>(c: Counts, f: Fate<M>): Counts
    requires Parses(f)
  {
    var c := c.(parsed := c.parsed + 1);
    if f.filter.Panicked? then WithParseError(c)
    else if f.filter.value.None? then TallyWrite(c, f)
    else
      var run := f.filter.value.value;
      var c := if run.failed then c.(filterErrors := c.filterErrors + 1) else c;
      if run.keep then TallyWrite(c, f) else c.(filtered := c.filtered + 1)
  }

  function Tally<M>(c: Counts, f: Fate<M>): Counts {
    var c := c.(lines := c.lines + 1);
    if Parses(f) then TallyParsed(c, f) else WithParseError(c)
  }

  lemma TallyCountsOnce<M>(c: Counts, f: Fate<M>)
    ensures CountedOnce(c, Tally(c, f), f)
  {
  }

  class Processor<S, M> {
    const fates: (S, string) -> (S, Fate<M>)
    var world: S
    var stats: Counts

    constructor (fates: (S, string) -> (S, Fate<M>), world: S)
      ensures this.fates == fates && this.world == world && stats == ZERO
    {
      this.fates, this.world, stats := fates, world, ZERO;
    }

    method Process(line: string) returns (res: LineResult<M>)
      modifies this
      ensures world == fates(old(world), line).0
      ensures res == ResultOf(fates(old(world), line).1)
      ensures stats == Tally(old(stats), fates(old(world), line).1)
      ensures CountedOnce(old(stats), stats, fates(old(world), line).1)
    {
      var (after, f) := fates(world, line);
      world := after;
      TallyCountsOnce(stats, f);
      hide CountedOnce;
      stats := stats.(lines := stats.lines + 1);
      if f.parse.Panicked? {
        res := Recovered(f);
      } else if f.parse.value.None? {
        stats := stats.(parseErrors := stats.parseErrors + 1, deadLetters := stats.deadLetters + 1);
        res := LineResult(ParseError, Some(f.deadLetter));
      } else {
        res := AfterParse(f);
      }
    }

    /** Counts the parse and applies the filter. */
    method AfterParse(f: Fate<M>) returns (res: LineResult<M>)
      requires Parses(f)
      modifies this`stats
      ensures res == ResultOf(f) && stats == TallyParsed(old(stats), f)
    {
      stats := stats.(parsed := stats.parsed + 1);
      if f.filter.Panicked? {
        res := Recovered(f);
        return;
      }
      if f.filter.value.Some? {
        if f.filter.value.value.failed {
          stats := stats.(filterErrors := stats.filterErrors + 1);
        }
        if !f.filter.value.value.keep {
          stats := stats.(filtered := stats.filtered + 1);
          return LineResult(Filtered, None);
        }
      }
      res := AfterFilter(f);
    }

    /** Resolves the user, counts the write, and builds its model. */
    method AfterFilter(f: Fate<M>) returns (res: LineResult<M>)
      requires PassesFilter(f)
      modifies this`stats
      ensures res == ResultOf(f) && stats == TallyWrite(old(stats), f)
    {
      if f.resolve.Panicked? {
        res := Recovered(f);
        return;
      }
      if f.resolve.value.None? {
        stats := stats.(identityErrors := stats.identityErrors + 1, deadLetters := stats.deadLetters + 1);
        return LineResult(IdentityError, Some(f.deadLetter));
      }
      match f.parse.value.value {
        case UserRecord => stats := stats.(userWrites := stats.userWrites + 1);
        case EventRecord => stats := stats.(eventWrites := stats.eventWrites + 1);
      }
      if f.build.Panicked? {
        res := Recovered(f);
        return;
      }
      return LineResult(if f.parse.value.value.UserRecord? then User else Event, Some(f.build.value));
    }

    /** The deferred recover: whatever panicked, the line goes to dead_letter. */
    method Recovered(f: Fate<M>) returns (res: LineResult<M>)
      modifies this`stats
      ensures res == LineResult(ParseError, Some(f.deadLetter))
      ensures stats == old(stats).(parseErrors := old(stats.parseErrors) + 1, deadLetters := old(stats.deadLetters) + 1)
    {
      stats := stats.(parseErrors := stats.parseErrors + 1, deadLetters := stats.deadLetters + 1);
      return LineResult(ParseError, Some(f.deadLetter));
    }
  }

  // --- Whole inputs ---------------------------------------------------------------------------

  /** What the lines before leave to the next one. */
  function WorldAfter<S, M>(fates: (S, string) -> (S, Fate<M>), world: S, lines: seq<string>): S
    decreases |lines|
  {
    if lines == [] then world
    else fates(WorldAfter(fates, world, lines[..|lines| - 1]), lines[|lines| - 1]).0
  }

  /** The fates of the lines in order, each stage seeing what the lines before left. */
  function FatesOf<S, M>(fates: (S, string) -> (S, Fate<M>), world: S, lines: seq<string>): seq<Fate<M>>
    decreases |lines|
  {
    if lines == [] then []
    else
      var init := lines[..|lines| - 1];
      FatesOf(fates, world, init) + [fates(WorldAfter(fates, world, init), lines[|lines| - 1]).1]
  }

  /** The counters after the lines in order. */
  function CountsAfter<S, M>(fates: (S, string) -> (S, Fate<M>), world: S, c: Counts, lines: seq<string>): Counts
    decreases |lines|
  {
    if lines == [] then c
    else
      var init := lines[..|lines| - 1];
      Tally(CountsAfter(fates, world, c, init), fates(WorldAfter(fates, world, init), lines[|lines| - 1]).1)
  }

  /** The lines that panicked while their model was built. */
  function LatePanics<M>(fs: seq<Fate<M>>): nat {
    if fs == [] then 0 else LatePanics(fs[..|fs| - 1]) + One(PanicsBuilding(fs[|fs| - 1]))
  }

  lemma LateSnoc<M>(fs: seq<Fate<M>>, f: Fate<M>)
    ensures LatePanics(fs + [f]) == LatePanics(fs) + One(PanicsBuilding(f))
  {
    assert (fs + [f])[..|fs|] == fs;
  }

  /** One line settles once, and once more if it panics while its model is built. */
  lemma TallySettles<M>(c: Counts, f: Fate<M>)
    ensures Tally(c, f).lines == c.lines + 1
    ensures Settled(Tally(c, f)) == Settled(c) + 1 + One(PanicsBuilding(f))
  {
    TallyCountsOnce(c, f);
    hide Tally;
  }

  /** After any lines, the settled lines exceed the lines read by exactly the lines that panicked while their model
      was built. */
  lemma {:induction false} LinesAreSettled<S, M>(fates: (S, string) -> (S, Fate<M>), world: S, c: Counts,
                                                 lines: seq<string>)
    ensures CountsAfter(fates, world, c, lines).lines == c.lines + |lines|
    ensures Settled(CountsAfter(fates, world, c, lines)) ==
            Settled(c) + |lines| + LatePanics(FatesOf(fates, world, lines))
    ensures |FatesOf(fates, world, lines)| == |lines|
    decreases |lines|
  {
    hide Tally, Settled, LatePanics, PanicsBuilding;
    if lines == [] {
      NoFates<M>();
    } else {
      var init := lines[..|lines| - 1];
      var f := fates(WorldAfter(fates, world, init), lines[|lines| - 1]).1;
      LinesAreSettled(fates, world, c, init);
      TallySettles(CountsAfter(fates, world, c, init), f);
      LateSnoc(FatesOf(fates, world, init), f);
    }
  }

  lemma NoFates<M>()
    ensures LatePanics<M>([]) == 0
  {
  }

  /** So the two agree if and only if no line panicked late. */
  lemma {:induction false} NoLatePanics<M>(fs: seq<Fate<M>>)
    ensures LatePanics(fs) == 0 <==> forall i :: 0 <= i < |fs| ==> !PanicsBuilding(fs[i])
    decreases |fs|
  {
    if fs != [] {
      var init := fs[..|fs| - 1];
      NoLatePanics(init);
      assert forall i :: 0 <= i < |init| ==> init[i] == fs[i];
    }
  }
}
