/** The processor over the real parser and the real model builders (internal/process/core/processor.go:69-122,
    internal/parser/talog/parser.go, internal/dao/store/writemodel.go).  The filter and identity resolution are
    function parameters, and either may panic.
 */
module Ingest {
  import opened Wrappers
  import opened Documents
  import opened WriteModels
  import opened Records
  import opened Processing
  import R = BulkRetry
  import U = Uploaders
  import S = PipelineSteps
  import P = PipelineRuns

  datatype Model = ToStore(write: WriteModel) | DeadLetter(line: string)

  datatype Stages<!W> = Stages(
    decode: string -> Option<Doc>, now: W -> int,
    filter: (W, Doc) -> Ran<Option<FilterRun>>, resolve: (W, string, string) -> (W, Ran<Option<int>>))

  function CategoryOf(rec: TaRecord): Category {
    if IsUserType(rec.typ) then Category.UserRecord else EventRecord
  }

  /** Writing into a nil document panics. */
  function BuildModel(rec: TaRecord, userID: int, now: int): Ran<Model> {
    if rec.doc.None? then Panicked
    else
      var doc := rec.doc.value["#user_id" := Num(userID)];
      Returned(ToStore(if IsUserType(rec.typ) then UserModel(rec.typ, userID, doc)
                       else EventModel(rec.typ, rec.uuid, Keyed(rec.uuid, doc, now))))
  }

  /** What each stage does with a record.  An event's document is written into before the write is counted, a user's
      while its model is built. */
  function FateOfRecord<W>(st: Stages<W>, world: W, line: string, rec: TaRecord): (W, Fate<Model>) {
    var filter := st.filter(world, if rec.doc.Some? then rec.doc.value else map[]);
    var (after, resolved) := st.resolve(world, rec.account, rec.distinct);
    var nilEvent := rec.doc.None? && !IsUserType(rec.typ);
    var resolve := if nilEvent && resolved.Returned? && resolved.value.Some? then Panicked else resolved;
    var id := if resolved.Returned? && resolved.value.Some? then resolved.value.value else 0;
    (after,
     Fate(Returned(Some(CategoryOf(rec))), filter, resolve, BuildModel(rec, id, st.now(world)), DeadLetter(line)))
  }

  function FateOf<W>(st: Stages<W>, world: W, line: string): (W, Fate<Model>) {
    var rec := Parsed(st.decode, line, st.now(world));
    if rec.None? then (world, Fate(Returned(None), Returned(None), Returned(None), Panicked, DeadLetter(line)))
    else FateOfRecord(st, world, line, rec.value)
  }

  function Fates<W>(st: Stages<W>): (W, string) -> (W, Fate<Model>) {
    (world: W, line: string) => FateOf(st, world, line)
  }

  /** The user id of a parsed line is what identity resolution gives for the account and the distinct id of its
      payload; the filter sees the record's document. */
  lemma ResolvedByItsIds<W>(st: Stages<W>, world: W, line: string)
    requires st.decode(line).Some? && HasTaKeys(st.decode(line).value)
    requires Parsed(st.decode, line, st.now(world)).Some?
    ensures var payload, rec := st.decode(line).value, Parsed(st.decode, line, st.now(world)).value;
            var (after, f) := FateOf(st, world, line);
            var resolved := st.resolve(world, ToString(payload, "#account_id"), ToString(payload, "#distinct_id"));
            && after == resolved.0 && f.resolve == resolved.1
            && rec.doc.Some? && f.filter == st.filter(world, rec.doc.value)
            && (resolved.1.Returned? && resolved.1.value.Some? ==>
                  && f.build.Returned? && f.build.value.ToStore?
                  && f.build.value.write ==
                     var doc := rec.doc.value["#user_id" := Num(resolved.1.value.value)];
                     if "user_" <= rec.typ then UserModel(rec.typ, resolved.1.value.value, doc)
                     else EventModel(rec.typ, rec.uuid, doc))
  {
    hide UserModel, EventModel, Flatten;
    ParsedIsStorable(st.decode, line, st.now(world));
  }

  /** A record panics while its model is built, after it was counted as a write, exactly when it is a user record
      with a nil document that reaches the builder. */
  lemma LatePanicIff<W>(st: Stages<W>, world: W, line: string, rec: TaRecord)
    ensures var f := FateOfRecord(st, world, line, rec).1;
            PanicsBuilding(f) <==> rec.doc.None? && IsUserType(rec.typ) && Builds(f)
  {
    hide UserModel, EventModel, Keyed;
  }

  /** The parser never yields such a record, so no line panics late. */
  lemma ParsedNeverPanicsLate<W>(st: Stages<W>, world: W, line: string)
    ensures !PanicsBuilding(FateOf(st, world, line).1)
  {
    hide Parsed, PanicsBuilding, FateOfRecord;
    var rec := Parsed(st.decode, line, st.now(world));
    if rec.Some? {
      ParsedIsStorable(st.decode, line, st.now(world));
      LatePanicIff(st, world, line, rec.value);
    } else {
      UnparsedIsNoWrite(FateOf(st, world, line).1);
    }
  }

  lemma UnparsedIsNoWrite<M>(f: Fate<M>)
    requires f.parse == Returned(None)
    ensures !PanicsBuilding(f)
  {
  }

  /** The models a parsed line sends to the store keep their retry promises: an event's always, a user's for
      user_set, user_unset, user_del and unknown user types. */
  lemma ParsedModelsRetryable<W>(st: Stages<W>, world: W, line: string)
    ensures var rec, f := Parsed(st.decode, line, st.now(world)), FateOf(st, world, line).1;
            rec.Some? ==>
              && f.build.Returned? && f.build.value.ToStore?
              && (rec.value.typ !in {"user_setOnce", "user_add", "user_append", "user_uniq_append"} ==>
                    R.Retryable(f.build.value.write))
  {
    hide Parsed, UserModel, EventModel, R.Retryable;
    var now := st.now(world);
    if Parsed(st.decode, line, now).Some? {
      ParsedIsStorable(st.decode, line, now);
      var rec := Parsed(st.decode, line, now).value;
      var resolved := st.resolve(world, rec.account, rec.distinct).1;
      var id := if resolved.Returned? && resolved.value.Some? then resolved.value.value else 0;
      var doc := rec.doc.value["#user_id" := Num(id)];
      assert Keyed(rec.uuid, doc, now) == doc;
      R.EventModelsRetryable(rec.typ, rec.uuid, doc);
      if rec.typ !in {"user_setOnce", "user_add", "user_append", "user_uniq_append"} {
        R.UserModelsRetryable(rec.typ, id, doc);
      }
    }
  }

  // --- The balance, outright ----------------------------------------------------------------------

  lemma {:induction false} NoneLate<W>(st: Stages<W>, world: W, lines: seq<string>)
    ensures LatePanics(FatesOf(Fates(st), world, lines)) == 0
    decreases |lines|
  {
    hide PanicsBuilding, FateOf;
    if lines == [] {
      NoFates<Model>();
    } else {
      var init, line := lines[..|lines| - 1], lines[|lines| - 1];
      NoneLate(st, world, init);
      var w := WorldAfter(Fates(st), world, init);
      ParsedNeverPanicsLate(st, w, line);
      LateSnoc(FatesOf(Fates(st), world, init), FateOf(st, w, line).1);
    }
  }

  lemma OutrightWhenNoneLate(c: Counts, n: nat)
    requires c.lines == ZERO.lines + n && Settled(c) == Settled(ZERO) + n
    ensures c.lines == n == c.userWrites + c.eventWrites + c.filtered + c.deadLetters
  {
  }

  /** After any lines, one at a time or in batches of any size:
      lines = user writes + event writes + filtered + dead letters. */
  lemma LinesBalance<W>(st: Stages<W>, world: W, lines: seq<string>)
    ensures var c := CountsAfter(Fates(st), world, ZERO, lines);
            c.lines == |lines| == c.userWrites + c.eventWrites + c.filtered + c.deadLetters
  {
    hide *;
    LinesAreSettled(Fates(st), world, ZERO, lines);
    NoneLate(st, world, lines);
    OutrightWhenNoneLate(CountsAfter(Fates(st), world, ZERO, lines), |lines|);
  }

  /** The fate is that of some line in some world. */
  ghost predicate FromStages<W(!new)>(st: Stages<W>, f: Fate<Model>) {
    exists world: W, line: string :: f == FateOf(st, world, line).1
  }

  lemma NeverLate<W(!new)>(st: Stages<W>, f: Fate<Model>)
    requires FromStages(st, f)
    ensures !PanicsBuilding(f)
  {
    hide PanicsBuilding;
    var world: W, line: string :| f == FateOf(st, world, line).1;
    hide FateOf;
    ParsedNeverPanicsLate(st, world, line);
  }

  /** At the end of every schedule of the pipeline the counters balance outright, and count exactly the models handed
      to BulkWrite. */
  lemma PipelineBalances<W(!new)>(st: Stages<W>, c: S.Setup, s: S.State<Model>)
    requires S.Usable(c) && P.Reachable(c, s) && P.AllDone(s)
    requires forall i :: 0 <= i < |s.fates| ==> FromStages(st, s.fates[i])
    ensures var t := s.stats;
            t.lines == |c.input| == t.userWrites + t.eventWrites + t.filtered + t.deadLetters
    ensures s.stats.userWrites == P.Total(s.workers, P.Handed(U.Users))
    ensures s.stats.eventWrites == P.Total(s.workers, P.Handed(U.Events))
  {
    hide P.Reachable, P.AllDone, P.Total, LatePanics, P.LateOf, PanicsBuilding, FromStages;
    forall i | 0 <= i < |s.fates| ensures !PanicsBuilding(s.fates[i]) {
      NeverLate(st, s.fates[i]);
    }
    P.EndsBalanced(c, s);
    NoLatePanics(s.fates);
    NoLateOf(s.fates, Category.UserRecord);
    NoLateOf(s.fates, EventRecord);
  }

  lemma {:induction false} NoLateOf<M>(fs: seq<Fate<M>>, category: Category)
    requires forall i :: 0 <= i < |fs| ==> !PanicsBuilding(fs[i])
    ensures P.LateOf(fs, category) == 0
    decreases |fs|
  {
    hide PanicsBuilding;
    if fs != [] {
      assert forall i :: 0 <= i < |fs| - 1 ==> fs[..|fs| - 1][i] == fs[i];
      NoLateOf(fs[..|fs| - 1], category);
    }
  }
}
