/** The batch uploader and the one-line-at-a-time uploader it must agree with
    (internal/process/batch/uploader.go, internal/process/single/uploader.go), on a finite source whose
    writes succeed.
 */
module Uploaders {
  import opened Wrappers
  import opened Processing
  import D = Documents

  datatype Target = Users | Events | DeadLetters

  /** One call to BulkWrite. */
  datatype Bulk<M> = Bulk(target: Target, models: seq<M>)

  function TargetOf(k: Kind): Option<Target> {
    match k
    case User => Some(Users)
    case Event => Some(Events)
    case Filtered => None
    case ParseError => Some(DeadLetters)
    case IdentityError => Some(DeadLetters)
  }

  /** The models that results send to one collection, in order. */
  function Models<M>(rs: seq<LineResult<M>>, t: Target): seq<M> {
    if rs == [] then []
    else
      var last := rs[|rs| - 1];
      Models(rs[..|rs| - 1], t)
      + (if TargetOf(last.kind) == Some(t) && last.model.Some? then [last.model.value] else [])
  }

  /** The models that a sequence of bulk writes carried to one collection, in order. */
  function Sent<M>(bulks: seq<Bulk<M>>, t: Target): seq<M> {
    if bulks == [] then []
    else
      var last := bulks[|bulks| - 1];
      Sent(bulks[..|bulks| - 1], t) + (if last.target == t then last.models else [])
  }

  lemma SentSnoc<M>(bulks: seq<Bulk<M>>, b: Bulk<M>, t: Target)
    ensures Sent(bulks + [b], t) == Sent(bulks, t) + (if b.target == t then b.models else [])
  {
    assert (bulks + [b])[..|bulks|] == bulks;
  }

  lemma ModelsSnoc<M>(rs: seq<LineResult<M>>, r: LineResult<M>, t: Target)
    ensures Models(rs + [r], t) ==
            Models(rs, t) + (if TargetOf(r.kind) == Some(t) && r.model.Some? then [r.model.value] else [])
  {
    assert (rs + [r])[..|rs|] == rs;
  }

  /** The results of the lines in order. */
  function Results<S, M>(fates: (S, string) -> (S, Fate<M>), world: S, lines: seq<string>): seq<LineResult<M>>
    decreases |lines|
  {
    if lines == [] then []
    else
      var init := lines[..|lines| - 1];
      Results(fates, world, init) + [ResultOf(fates(WorldAfter(fates, world, init), lines[|lines| - 1]).1)]
  }

  lemma OneMore<S, M>(fates: (S, string) -> (S, Fate<M>), world: S, c: Counts, lines: seq<string>, i: nat)
    requires i < |lines|
    ensures var f := fates(WorldAfter(fates, world, lines[..i]), lines[i]);
            && WorldAfter(fates, world, lines[..i + 1]) == f.0
            && Results(fates, world, lines[..i + 1]) == Results(fates, world, lines[..i]) + [ResultOf(f.1)]
            && CountsAfter(fates, world, c, lines[..i + 1]) == Tally(CountsAfter(fates, world, c, lines[..i]), f.1)
  {
    hide ResultOf, Tally;
    assert lines[..i + 1][..i] == lines[..i];
  }

  /** What BulkWrite has been given. */
  class Sink<M> {
    var bulks: seq<Bulk<M>>

    constructor ()
      ensures bulks == []
    {
      bulks := [];
    }

    method BulkWrite(t: Target, models: seq<M>)
      modifies this
      ensures bulks == old(bulks) + [Bulk(t, models)]
      ensures forall u :: Sent(bulks, u) == Sent(old(bulks), u) + (if t == u then models else [])
    {
      forall u ensures Sent(bulks + [Bulk(t, models)], u) == Sent(bulks, u) + (if t == u then models else []) {
        SentSnoc(bulks, Bulk(t, models), u);
      }
      bulks := bulks + [Bulk(t, models)];
    }
  }

  // --- One line at a time ----------------------------------------------------------------------

  predicate OneEach<M>(bulks: seq<Bulk<M>>) {
    forall i :: 0 <= i < |bulks| ==> |bulks[i].models| == 1
  }

  class SingleUploader<S, M> {
    const proc: Processor<S, M>
    const sink: Sink<M>

    constructor (proc: Processor<S, M>, sink: Sink<M>)
      ensures this.proc == proc && this.sink == sink
    {
      this.proc, this.sink := proc, sink;
    }

    method Run(lines: seq<string>)
      requires sink.bulks == [] && proc.stats == ZERO
      modifies proc, sink
      ensures OneEach(sink.bulks)
      ensures forall t :: Sent(sink.bulks, t) == Models(Results(proc.fates, old(proc.world), lines), t)
      ensures proc.world == WorldAfter(proc.fates, old(proc.world), lines)
      ensures proc.stats == CountsAfter(proc.fates, old(proc.world), ZERO, lines)
    {
      ghost var fates, start := proc.fates, proc.world;
      for i := 0 to |lines|
        invariant OneEach(sink.bulks)
        invariant forall t :: Sent(sink.bulks, t) == Models(Results(fates, start, lines[..i]), t)
        invariant proc.world == WorldAfter(fates, start, lines[..i])
        invariant proc.stats == CountsAfter(fates, start, ZERO, lines[..i])
      {
        hide ResultOf, Models, Sent, Tally, Results, WorldAfter, CountsAfter;
        OneMore(fates, start, ZERO, lines, i);
        var res := proc.Process(lines[i]);
        forall t ensures Models(Results(fates, start, lines[..i + 1]), t) ==
                         Models(Results(fates, start, lines[..i]), t)
                         + (if TargetOf(res.kind) == Some(t) && res.model.Some? then [res.model.value] else [])
        {
          ModelsSnoc(Results(fates, start, lines[..i]), res, t);
        }
        Write(res);
      }
      assert lines[..|lines|] == lines;
    }

    method Write(res: LineResult<M>)
      requires res.kind != Filtered ==> res.model.Some?
      modifies sink
      ensures OneEach(old(sink.bulks)) ==> OneEach(sink.bulks)
      ensures forall t :: Sent(sink.bulks, t) == Sent(old(sink.bulks), t)
                          + (if TargetOf(res.kind) == Some(t) && res.model.Some? then [res.model.value] else [])
    {
      hide Sent;
      match res.kind {
        case ParseError => sink.BulkWrite(DeadLetters, [res.model.value]);
        case IdentityError => sink.BulkWrite(DeadLetters, [res.model.value]);
        case Filtered =>
        case User => sink.BulkWrite(Users, [res.model.value]);
        case Event => sink.BulkWrite(Events, [res.model.value]);
      }
    }
  }

  // --- In batches ----------------------------------------------------------------------------------

  const DEFAULT_BATCH_SIZE := 1000

  function Pick<M>(t: Target, user: seq<M>, event: seq<M>, dead: seq<M>): seq<M> {
    match t
    case Users => user
    case Events => event
    case DeadLetters => dead
  }

  predicate Sized<M>(bulks: seq<Bulk<M>>, size: int) {
    forall i :: 0 <= i < |bulks| ==> 1 <= |bulks[i].models| <= size
  }

  /** What is sent and what is pending are together the models of the results so far. */
  ghost predicate Carried<M>(bulks: seq<Bulk<M>>, user: seq<M>, event: seq<M>, dead: seq<M>, rs: seq<LineResult<M>>) {
    forall t :: Sent(bulks, t) + Pick(t, user, event, dead) == Models(rs, t)
  }

  lemma CarriedMore<M>(bulks: seq<Bulk<M>>, user: seq<M>, event: seq<M>, dead: seq<M>, rs: seq<LineResult<M>>,
                       r: LineResult<M>)
    requires Carried(bulks, user, event, dead, rs) && (r.kind != Filtered ==> r.model.Some?)
    ensures var t := TargetOf(r.kind);
            Carried(bulks, if t == Some(Users) then user + [r.model.value] else user,
                    if t == Some(Events) then event + [r.model.value] else event,
                    if t == Some(DeadLetters) then dead + [r.model.value] else dead, rs + [r])
  {
    hide Sent, Models;
    var at := TargetOf(r.kind);
    var user' := if at == Some(Users) then user + [r.model.value] else user;
    var event' := if at == Some(Events) then event + [r.model.value] else event;
    var dead' := if at == Some(DeadLetters) then dead + [r.model.value] else dead;
    forall t ensures Sent(bulks, t) + Pick(t, user', event', dead') == Models(rs + [r], t) {
      ModelsSnoc(rs, r, t);
      assert Sent(bulks, t) + Pick(t, user, event, dead) == Models(rs, t);
    }
  }

  lemma CarriedFlushed<M>(bulks: seq<Bulk<M>>, bulks': seq<Bulk<M>>, user: seq<M>, event: seq<M>, dead: seq<M>,
                          rs: seq<LineResult<M>>)
    requires Carried(bulks, user, event, dead, rs)
    requires forall t :: Sent(bulks', t) == Sent(bulks, t) + Pick(t, user, event, dead)
    ensures Carried(bulks', [], [], [], rs)
    ensures forall t :: Sent(bulks', t) == Models(rs, t)
  {
    hide Sent, Models;
    forall t ensures Sent(bulks', t) + Pick(t, [], [], []) == Models(rs, t) && Sent(bulks', t) == Models(rs, t) {
      assert Sent(bulks, t) + Pick(t, user, event, dead) == Models(rs, t);
    }
  }

  class BatchUploader<S, M> {
    const proc: Processor<S, M>
    const sink: Sink<M>
    const batchSize: int
    // How many models each flush carried.
    ghost var flushes: seq<nat>

    constructor (proc: Processor<S, M>, sink: Sink<M>, batchSize: int)
      ensures this.proc == proc && this.sink == sink && flushes == []
      ensures this.batchSize == if batchSize <= 0 then 1000 else batchSize
    {
      this.proc, this.sink := proc, sink;
      this.batchSize := if batchSize <= 0 then DEFAULT_BATCH_SIZE else batchSize;
      flushes := [];
    }

    method Run(lines: seq<string>)
      requires batchSize >= 1
      requires sink.bulks == [] && flushes == [] && proc.stats == ZERO
      modifies proc, sink, this`flushes
      ensures Sized(sink.bulks, batchSize) && forall i :: 0 <= i < |flushes| ==> flushes[i] <= batchSize
      ensures flushes != [] && flushes[|flushes| - 1] < batchSize
      ensures forall i :: 0 <= i < |flushes| - 1 ==> flushes[i] == batchSize
      ensures forall t :: Sent(sink.bulks, t) == Models(Results(proc.fates, old(proc.world), lines), t)
      ensures proc.world == WorldAfter(proc.fates, old(proc.world), lines)
      ensures proc.stats == CountsAfter(proc.fates, old(proc.world), ZERO, lines)
    {
      ghost var fates, start := proc.fates, proc.world;
      var user, event, dead: seq<M> := [], [], [];
      var pending := 0;
      for i := 0 to |lines|
        invariant |user| + |event| + |dead| == pending < batchSize
        invariant Sized(sink.bulks, batchSize) && forall j :: 0 <= j < |flushes| ==> flushes[j] == batchSize
        invariant Carried(sink.bulks, user, event, dead, Results(fates, start, lines[..i]))
        invariant proc.world == WorldAfter(fates, start, lines[..i])
        invariant proc.stats == CountsAfter(fates, start, ZERO, lines[..i])
      {
        OneMore(fates, start, ZERO, lines, i);
        var res := proc.Process(lines[i]);
        ghost var rs := Results(fates, start, lines[..i + 1]);
        CarriedMore(sink.bulks, user, event, dead, Results(fates, start, lines[..i]), res);
        assert res.kind != Filtered ==> res.model.Some?;
        hide ResultOf, Models, Sent, Tally, Results, WorldAfter, CountsAfter, Sized, Carried, CountedOnce;
        match res.kind {
          case ParseError => dead := dead + [res.model.value];
          case IdentityError => dead := dead + [res.model.value];
          case Filtered => continue;
          case User => user := user + [res.model.value];
          case Event => event := event + [res.model.value];
        }
        pending := pending + 1;
        if pending >= batchSize {
          ghost var before := sink.bulks;
          Flush(user, event, dead);
          CarriedFlushed(before, sink.bulks, user, event, dead, rs);
          user, event, dead, pending := [], [], [], 0;
        }
      }
      assert lines[..|lines|] == lines;
      ghost var before := sink.bulks;
      Flush(user, event, dead);
      CarriedFlushed(before, sink.bulks, user, event, dead, Results(fates, start, lines));
    }

    method Flush(user: seq<M>, event: seq<M>, dead: seq<M>)
      requires |user| + |event| + |dead| <= batchSize
      requires Sized(sink.bulks, batchSize) && forall i :: 0 <= i < |flushes| ==> flushes[i] <= batchSize
      modifies sink, this`flushes
      ensures Sized(sink.bulks, batchSize)
      ensures flushes == old(flushes) + [|user| + |event| + |dead|]
      ensures forall t :: Sent(sink.bulks, t) == Sent(old(sink.bulks), t) + Pick(t, user, event, dead)
    {
      hide Sent;
      if |user| > 0 {
        sink.BulkWrite(Users, user);
      }
      if |event| > 0 {
        sink.BulkWrite(Events, event);
      }
      if |dead| > 0 {
        sink.BulkWrite(DeadLetters, dead);
      }
      flushes := flushes + [|user| + |event| + |dead|];
    }
  }

  // --- They agree -----------------------------------------------------------------------------------

  /** What the bulk writes to one collection leave in it. */
  function Stored(c: D.Coll, bulks: seq<Bulk<D.WriteModel>>, t: Target): D.Coll {
    if bulks == [] then c
    else
      var last := bulks[|bulks| - 1];
      var before := Stored(c, bulks[..|bulks| - 1], t);
      if last.target == t then D.WriteAll(before, last.models) else before
  }

  lemma {:induction false} StoredIsSent(c: D.Coll, bulks: seq<Bulk<D.WriteModel>>, t: Target)
    ensures Stored(c, bulks, t) == D.WriteAll(c, Sent(bulks, t))
    decreases |bulks|
  {
    hide D.WriteDoc;
    if bulks != [] {
      var init, last := bulks[..|bulks| - 1], bulks[|bulks| - 1];
      StoredIsSent(c, init, t);
      D.WriteAllSplit(c, Sent(init, t), last.models);
      assert Sent(init, t) + [] == Sent(init, t);
    }
  }

  /** However the models of the same results were grouped into bulk writes, each collection ends the same. */
  lemma SameDatabase(c: D.Coll, t: Target, bulks: seq<Bulk<D.WriteModel>>, bulks': seq<Bulk<D.WriteModel>>)
    requires Sent(bulks, t) == Sent(bulks', t)
    ensures Stored(c, bulks, t) == Stored(c, bulks', t)
  {
    StoredIsSent(c, bulks, t);
    StoredIsSent(c, bulks', t);
  }

  lemma ZeroSettled()
    ensures Settled(ZERO) == 0
  {
  }

  /** For every batch size the batch uploader refines the single one: on the same source, from the same start,
      the same models reach each collection in the same order, so user and event collections end the same, as
      do the counters. */
  method BatchRefinesSingle<S>(fates: (S, string) -> (S, Fate<D.WriteModel>), world: S, lines: seq<string>,
                               batchSize: int, users: D.Coll, events: D.Coll)
    returns (one: seq<Bulk<D.WriteModel>>, many: seq<Bulk<D.WriteModel>>, counts: Counts, counts': Counts)
    ensures forall t :: Sent(one, t) == Sent(many, t)
    ensures Stored(users, one, Users) == Stored(users, many, Users)
    ensures Stored(events, one, Events) == Stored(events, many, Events)
    ensures counts == counts' && counts.lines == |lines|
    ensures Settled(counts) == |lines| + LatePanics(FatesOf(fates, world, lines))
    ensures OneEach(one) && Sized(many, if batchSize <= 0 then DEFAULT_BATCH_SIZE else batchSize)
  {
    hide CountsAfter, WorldAfter, FatesOf, LatePanics, Settled, Sent, Stored, Results, Models, OneEach, Sized;
    ZeroSettled();
    var proc := new Processor(fates, world);
    var sink := new Sink<D.WriteModel>();
    var single := new SingleUploader(proc, sink);
    single.Run(lines);
    var proc' := new Processor(fates, world);
    var sink' := new Sink<D.WriteModel>();
    var batch := new BatchUploader(proc', sink', batchSize);
    batch.Run(lines);
    one, many, counts, counts' := sink.bulks, sink'.bulks, proc.stats, proc'.stats;
    LinesAreSettled(fates, world, ZERO, lines);
    SameDatabase(users, Users, one, many);
    SameDatabase(events, Events, one, many);
  }
}
