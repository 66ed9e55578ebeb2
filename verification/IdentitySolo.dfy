/** A call whose steps no other call interrupts does what the directory says, step by step
    (internal/dao/store/identity_lookup.go, identity_atomic.go): the interleaved model against the specification.
 */
module IdentitySolo {
  import opened Wrappers
  import opened IdentityDb
  import opened IdentitySteps
  import D = IdentitySpec
  import R = IdentityResolvers

  /** The collection and every cache say what the directory says. */
  ghost predicate Matches(s: State, t: D.Directory) {
    R.Represents(s.docs, s.counter, t) && forall pod :: pod in s.caches ==> CacheTrue(s.docs, s.caches[pod])
  }

  ghost predicate CacheTrue(docs: Docs, c: Cache) {
    && (forall a :: a in c.accounts ==> a != "" && Holds(docs, a, c.accounts[a]))
    && (forall d :: d in c.distincts ==> HasDistinct(docs, d, c.distincts[d]))
  }

  predicate HasDistinct(docs: Docs, d: string, id: int) {
    id in docs && d in docs[id].distincts
  }

  ghost predicate OpTrue(docs: Docs, op: CacheOp) {
    match op
    case PutAccount(a, id) => a != "" && Holds(docs, a, id)
    case PutDistinct(d, id) => HasDistinct(docs, d, id)
  }

  /** What a fresh mapping of this kind is needed for. */
  ghost predicate Unknown(docs: Docs, call: Call, kind: Kind) {
    match kind
    case ForDistinct => call.account == "" && call.distinct != "" && !DistinctTaken(docs, call.distinct)
    case ForBoth =>
      && call.account != "" && call.distinct != ""
      && !AccountTaken(docs, call.account) && !DistinctTaken(docs, call.distinct)
    case ForAccount =>
      && call.account != "" && !AccountTaken(docs, call.account)
      && (call.distinct != "" ==> exists d :: HasDistinct(docs, call.distinct, d) && docs[d].account != "")
  }

  /** A mapping as it still is. */
  predicate Current(docs: Docs, l: Loaded) {
    l.id in docs && docs[l.id] == l.m
  }

  /** Where the call stands, with the directory as it was when it began. */
  ghost predicate OnTheWay(docs: Docs, counter: int, t: D.Directory, call: Call, pc: Pc) {
    var done := R.Represents(docs, counter, D.After(t, call.account, call.distinct));
    var before := R.Represents(docs, counter, t);
    match pc
    case TryAccount => before && call.account != ""
    case TryDistinct(hit) =>
      && before && call.distinct != ""
      && (hit.Some? ==> call.account != "" && Holds(docs, call.account, hit.value))
    case FindAccount => before && call.account != ""
    case FindDistinct(am) =>
      && before && call.distinct != ""
      && (am.Some? ==> call.account != "" && am.value.m.account == call.account && Current(docs, am.value))
      && (am.None? && call.account != "" ==> !AccountTaken(docs, call.account))
    case Alloc(kind) => before && Unknown(docs, call, kind)
    case Insert(kind, id) => R.Represents(docs, counter - 1, t) && Unknown(docs, call, kind) && id == counter
    case Verify(id) =>
      && done && call.account == "" && HasDistinct(docs, call.distinct, id)
      && id == D.Answer(t, call.account, call.distinct)
    case BindDistinctTo(am) =>
      && before && call.account != "" && call.distinct != ""
      && am.m.account == call.account && Current(docs, am) && !DistinctTaken(docs, call.distinct)
    case BindAccountTo(dm) =>
      && before && call.account != "" && call.distinct != "" && !AccountTaken(docs, call.account)
      && dm.m.account == "" && Current(docs, dm) && call.distinct in dm.m.distincts
    case Store(ops, answer) =>
      && done && answer == D.Answer(t, call.account, call.distinct)
      && forall op :: op in ops ==> OpTrue(docs, op)
    case Done(answer) => done && answer == D.Answer(t, call.account, call.distinct)
    case _ => false
  }

  lemma CachingIsTrue(docs: Docs, l: Loaded)
    requires Current(docs, l)
    ensures forall op :: op in CacheMapping(l) ==> OpTrue(docs, op)
  {
  }

  lemma GrowsTrue(docs: Docs, docs': Docs, d: string, id: int)
    requires R.DocsGrow(docs, docs') && HasDistinct(docs, d, id)
    ensures HasDistinct(docs', d, id)
  {
    assert Extends(docs[id], docs'[id]);
    var i :| 0 <= i < |docs[id].distincts| && docs[id].distincts[i] == d;
    assert docs'[id].distincts[i] == d;
  }

  lemma CacheStaysTrue(docs: Docs, docs': Docs, c: Cache)
    requires R.DocsGrow(docs, docs') && CacheTrue(docs, c)
    ensures CacheTrue(docs', c)
  {
    forall d | d in c.distincts ensures HasDistinct(docs', d, c.distincts[d]) {
      GrowsTrue(docs, docs', d, c.distincts[d]);
    }
  }

  // --- Each step of the call -----------------------------------------------------------------------

  // The collection and the counter after the call's access.
  function CounterAfter(s: State, pc: Pc): int {
    if pc.Alloc? then s.counter + 1 else s.counter
  }

  lemma AccountCached(s: State, t: D.Directory, call: Call, found: Option<int>)
    requires OnTheWay(s.docs, s.counter, t, call, TryAccount) && CacheTrue(s.docs, CacheOf(s.caches, call.pod))
    ensures OnTheWay(s.docs, s.counter, t, call, NextPc(s, call, TryAccount, found))
  {
    hide R.Represents, D.Answer, D.After, D.Allocates, CacheOf;
    var c := CacheOf(s.caches, call.pod);
    if call.account in c.accounts && call.distinct == "" {
      R.KnownLogin(s.docs, s.counter, t, call.account, "", c.accounts[call.account], None);
    }
  }

  lemma DistinctCached(s: State, t: D.Directory, call: Call, pc: Pc, found: Option<int>)
    requires OnTheWay(s.docs, s.counter, t, call, pc) && CacheTrue(s.docs, CacheOf(s.caches, call.pod))
    requires pc.TryDistinct?
    ensures OnTheWay(s.docs, s.counter, t, call, NextPc(s, call, pc, found))
  {
    hide R.Represents, D.Answer, D.After, D.Allocates, CacheOf;
    var c := CacheOf(s.caches, call.pod);
    if call.distinct in c.distincts {
      var id := c.distincts[call.distinct];
      assert HasDistinct(s.docs, call.distinct, id);
      if call.account == "" {
        R.KnownVisitor(s.docs, s.counter, t, call.distinct, id);
      } else if pc.hit.Some? {
        R.KnownLogin(s.docs, s.counter, t, call.account, call.distinct, pc.hit.value, Some(id));
      }
    }
  }

  lemma AccountFound(s: State, t: D.Directory, call: Call, pc: Pc, found: Option<int>)
    requires OnTheWay(s.docs, s.counter, t, call, pc) && Readable(s.docs, call, pc, found) && pc.FindAccount?
    ensures OnTheWay(s.docs, s.counter, t, call, NextPc(s, call, pc, found))
  {
    hide R.Represents, D.Answer, D.After;
    if call.distinct == "" && found.Some? {
      R.KnownLogin(s.docs, s.counter, t, call.account, "", found.value, None);
      CachingIsTrue(s.docs, Load(s.docs, found).value);
    }
  }

  lemma DistinctFound(s: State, t: D.Directory, call: Call, pc: Pc, found: Option<int>)
    requires OnTheWay(s.docs, s.counter, t, call, pc) && Readable(s.docs, call, pc, found) && pc.FindDistinct?
    ensures OnTheWay(s.docs, s.counter, t, call, NextPc(s, call, pc, found))
  {
    hide R.Represents, D.Answer, D.After, CacheMapping;
    if found.Some? {
      var dm := Load(s.docs, found).value;
      CachingIsTrue(s.docs, dm);
      assert HasDistinct(s.docs, call.distinct, dm.id);
      if call.account == "" {
        R.KnownVisitor(s.docs, s.counter, t, call.distinct, dm.id);
      } else if pc.loaded.Some? {
        CachingIsTrue(s.docs, pc.loaded.value);
        R.KnownLogin(s.docs, s.counter, t, call.account, call.distinct, pc.loaded.value.id, found);
      }
    }
  }

  // What a fresh mapping does, against the directory.
  lemma Created(docs: Docs, counter: int, t: D.Directory, call: Call, kind: Kind)
    requires R.Represents(docs, counter, t) && Unknown(docs, call, kind)
    ensures var docs' := docs[counter + 1 := NewMapping(call, kind)];
            && R.Represents(docs', counter + 1, D.After(t, call.account, call.distinct)) && R.DocsGrow(docs, docs')
    ensures D.Answer(t, call.account, call.distinct) == counter + 1
  {
    hide R.Represents, D.Answer, D.After, R.DocsGrow, D.Allocates;
    match kind {
      case ForDistinct => R.CreateDistinct(docs, counter, t, call.distinct);
      case ForBoth => R.CreateBoth(docs, counter, t, call.account, call.distinct);
      case ForAccount =>
        var dm := None;
        if call.distinct != "" {
          var d :| HasDistinct(docs, call.distinct, d) && docs[d].account != "";
          dm := Some(d);
        }
        R.CreateAccount(docs, counter, t, call.account, call.distinct, dm);
    }
  }

  lemma NoConflict(docs: Docs, counter: int, t: D.Directory, call: Call, kind: Kind)
    requires R.Represents(docs, counter, t) && Unknown(docs, call, kind)
    ensures !InsertConflicts(docs, counter + 1, NewMapping(call, kind))
  {
    hide R.AccountsMatch, R.DistinctsMatch;
  }

  lemma Inserted(s: State, t: D.Directory, call: Call, pc: Pc, found: Option<int>)
    requires OnTheWay(s.docs, s.counter, t, call, pc) && pc.Insert?
    ensures var docs' := NextDocs(s, call, pc);
            R.DocsGrow(s.docs, docs') && OnTheWay(docs', s.counter, t, call, NextPc(s, call, pc, found))
  {
    hide R.Represents, D.Answer, D.After, R.DocsGrow, InsertConflicts;
    var id, m := pc.id, NewMapping(call, pc.kind);
    NoConflict(s.docs, s.counter - 1, t, call, pc.kind);
    Created(s.docs, s.counter - 1, t, call, pc.kind);
    var docs' := NextDocs(s, call, pc);
    assert docs' == s.docs[id := m] && docs'[id] == m;
    assert m.account != "" ==> Holds(docs', m.account, id);
    assert call.distinct in m.distincts ==> HasDistinct(docs', call.distinct, id);
  }

  lemma Bound(s: State, t: D.Directory, call: Call, pc: Pc, found: Option<int>)
    requires OnTheWay(s.docs, s.counter, t, call, pc) && (pc.BindDistinctTo? || pc.BindAccountTo?)
    ensures var docs' := NextDocs(s, call, pc);
            R.DocsGrow(s.docs, docs') && OnTheWay(docs', s.counter, t, call, NextPc(s, call, pc, found))
  {
    hide R.Represents, D.Answer, D.After, CacheMapping;
    var docs' := NextDocs(s, call, pc);
    if pc.BindDistinctTo? {
      R.BindVisitor(s.docs, s.counter, t, call.account, call.distinct, pc.am.id);
      JoinIsTrue(s.docs, pc.am, call.distinct);
    } else {
      R.BindLogin(s.docs, s.counter, t, call.account, call.distinct, pc.dm.id);
      assert Holds(docs', call.account, pc.dm.id);
    }
    hide R.DocsGrow;
  }

  lemma JoinIsTrue(docs: Docs, l: Loaded, d: string)
    requires Current(docs, l) && l.m.account != ""
    ensures var docs' := BindDistinct(docs, l.id, d);
            forall op :: op in CacheMapping(l) + [PutDistinct(d, l.id)] ==> OpTrue(docs', op)
  {
    var docs' := BindDistinct(docs, l.id, d);
    assert d !in docs[l.id].distincts ==> docs'[l.id].distincts[|docs[l.id].distincts|] == d;
    assert HasDistinct(docs', d, l.id);
    forall c | c in l.m.distincts ensures HasDistinct(docs', c, l.id) {
      var i :| 0 <= i < |l.m.distincts| && l.m.distincts[i] == c;
      assert docs'[l.id].distincts[i] == c;
    }
  }

  lemma Finished(s: State, t: D.Directory, call: Call, pc: Pc, found: Option<int>)
    requires OnTheWay(s.docs, s.counter, t, call, pc) && Readable(s.docs, call, pc, found)
    requires pc.Alloc? || pc.Verify? || pc.Store?
    ensures OnTheWay(s.docs, CounterAfter(s, pc), t, call, NextPc(s, call, pc, found))
  {
    if pc.Verify? {
      OnlyMapping(s.docs, s.counter, D.After(t, call.account, call.distinct), call.distinct, pc.id, found);
    }
    hide R.Represents, D.Answer, D.After;
    if pc.Store? && pc.ops != [] {
      assert forall op :: op in pc.ops[1..] ==> op in pc.ops;
    }
  }

  lemma OnlyMapping(docs: Docs, counter: int, t: D.Directory, d: string, id: int, found: Option<int>)
    requires R.Represents(docs, counter, t) && HasDistinct(docs, d, id) && FindsDistinct(docs, d, found)
    ensures found == Some(id)
  {
    R.OneMappingPerDistinct(docs, counter, t, id, if found.Some? then found.value else id, d);
  }

  // --- The whole call -----------------------------------------------------------------------------------

  /** Only this call moves, and the database does not fail. */
  predicate Alone(p: int, events: seq<Event>) {
    forall e :: e in events ==> e.Move? && e.p == p
  }

  ghost predicate Along(s: State, t: D.Directory, p: int) {
    && p in s.procs
    && OnTheWay(s.docs, s.counter, t, s.procs[p].call, s.procs[p].pc)
    && forall pod :: pod in s.caches ==> CacheTrue(s.docs, s.caches[pod])
  }

  lemma MovesAlong(s: State, t: D.Directory, call: Call, pc: Pc, found: Option<int>)
    requires Readable(s.docs, call, pc, found) && OnTheWay(s.docs, s.counter, t, call, pc)
    requires forall pod :: pod in s.caches ==> CacheTrue(s.docs, s.caches[pod])
    ensures var docs' := NextDocs(s, call, pc);
            && OnTheWay(docs', CounterAfter(s, pc), t, call, NextPc(s, call, pc, found))
            && R.DocsGrow(s.docs, docs')
  {
    SameGrows(s.docs);
    assert CacheTrue(s.docs, CacheOf(s.caches, call.pod));
    hide OnTheWay, NextPc, R.DocsGrow, R.Represents, CacheTrue, CacheOf;
    match pc
    case TryAccount => AccountCached(s, t, call, found);
    case TryDistinct(_) => DistinctCached(s, t, call, pc, found);
    case FindAccount => AccountFound(s, t, call, pc, found);
    case FindDistinct(_) => DistinctFound(s, t, call, pc, found);
    case Insert(_, _) => Inserted(s, t, call, pc, found);
    case BindDistinctTo(_) => Bound(s, t, call, pc, found);
    case BindAccountTo(_) => Bound(s, t, call, pc, found);
    case Alloc(_) => Finished(s, t, call, pc, found);
    case Verify(_) => Finished(s, t, call, pc, found);
    case Store(_, _) => Finished(s, t, call, pc, found);
    case _ => NotThere(s, t, call, pc);
  }

  lemma SameGrows(docs: Docs)
    ensures R.DocsGrow(docs, docs)
  {
  }

  lemma NotThere(s: State, t: D.Directory, call: Call, pc: Pc)
    requires pc.AdoptAccount? || pc.AdoptBind? || pc.DeleteOrphan?
    ensures !OnTheWay(s.docs, s.counter, t, call, pc)
  {
  }

  lemma StepsAlong(s: State, t: D.Directory, p: int, e: Event)
    requires Along(s, t, p) && Enabled(s, e) && e.Move? && e.p == p
    ensures Along(Next(s, e), t, p)
  {
    var pr := s.procs[p];
    MovesAlong(s, t, pr.call, pr.pc, e.found);
    var s' := Next(s, e);
    assert s'.docs == NextDocs(s, pr.call, pr.pc) && s'.counter == CounterAfter(s, pr.pc);
    forall pod | pod in s'.caches ensures CacheTrue(s'.docs, s'.caches[pod]) {
      CachesAlong(s, t, p, e, pod);
    }
    hide OnTheWay, NextPc, NextDocs, R.DocsGrow, CacheTrue;
  }

  lemma CachesAlong(s: State, t: D.Directory, p: int, e: Event, pod: int)
    requires Along(s, t, p) && Enabled(s, e) && e.Move? && e.p == p && pod in Next(s, e).caches
    requires R.DocsGrow(s.docs, Next(s, e).docs)
    ensures CacheTrue(Next(s, e).docs, Next(s, e).caches[pod])
  {
    hide R.Represents, NextPc, NextDocs, R.DocsGrow, CacheTrue, OpTrue, D.After, D.Answer;
    var pr, s' := s.procs[p], Next(s, e);
    if pr.pc.Store? && pr.pc.ops != [] && pod == pr.call.pod {
      assert NextDocs(s, pr.call, pr.pc) == s.docs by { StoreWritesNothing(s, pr.call, pr.pc); }
      NoCache(s.docs);
      assert pr.pc.ops[0] in pr.pc.ops;
      PutStaysTrue(s.docs, CacheOf(s.caches, pod), pr.pc.ops[0]);
    } else {
      CacheStaysTrue(s.docs, s'.docs, s.caches[pod]);
    }
  }

  lemma StoreWritesNothing(s: State, call: Call, pc: Pc)
    requires pc.Store?
    ensures NextDocs(s, call, pc) == s.docs
  {
  }

  lemma NoCache(docs: Docs)
    ensures CacheTrue(docs, Cache(map[], map[]))
  {
  }

  lemma PutStaysTrue(docs: Docs, c: Cache, op: CacheOp)
    requires CacheTrue(docs, c) && OpTrue(docs, op)
    ensures CacheTrue(docs, Put(c, op))
  {
    hide HasDistinct, Holds;
  }

  lemma {:induction false} RunsAlong(s: State, t: D.Directory, p: int, events: seq<Event>)
    requires Along(s, t, p) && IsRun(s, events) && Alone(p, events)
    ensures Along(Run(s, events), t, p)
    decreases |events|
  {
    hide Along, Enabled, Next;
    if events != [] {
      assert events[0] in events;
      StepsAlong(s, t, p, events[0]);
      RunsAlong(Next(s, events[0]), t, p, events[1..]);
    }
  }

  /** From any state that says what the directory says, a call that no other call interrupts never fails, and its
      answer, the bindings it makes, the id it issues and every cache are the directory's. */
  lemma SoloIsDirectory(s: State, t: D.Directory, p: int, call: Call, events: seq<Event>)
    requires Matches(s, t) && Enabled(s, Begin(p, call))
    requires IsRun(s, [Begin(p, call)] + events) && Alone(p, events)
    ensures var s' := Run(s, [Begin(p, call)] + events);
            && p in s'.procs && !s'.procs[p].pc.Failed?
            && (s'.procs[p].pc.Done? ==>
                  && s'.procs[p].pc.answer == D.Answer(t, call.account, call.distinct)
                  && Matches(s', D.After(t, call.account, call.distinct)))
  {
    var begin := Begin(p, call);
    var s1 := Next(s, begin);
    assert ([begin] + events)[1..] == events;
    StartsAlong(s, t, p, call);
    hide R.Represents, CacheTrue, D.After, D.Answer;
    RunsAlong(s1, t, p, events);
    SameCall(s1, p, events);
  }

  lemma StartsAlong(s: State, t: D.Directory, p: int, call: Call)
    requires Matches(s, t) && Enabled(s, Begin(p, call))
    ensures Along(Next(s, Begin(p, call)), t, p)
  {
    hide R.Represents, CacheTrue;
  }

  lemma {:induction false} SameCall(s: State, p: int, events: seq<Event>)
    requires IsRun(s, events) && p in s.procs
    ensures p in Run(s, events).procs && Run(s, events).procs[p].call == s.procs[p].call
    decreases |events|
  {
    hide NextPc, NextDocs;
    if events != [] {
      SameCall(Next(s, events[0]), p, events[1..]);
    }
  }
}
