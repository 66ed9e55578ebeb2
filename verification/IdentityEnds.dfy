/** That calls of identity resolution end, and with an answer (internal/dao/store/identity_lookup.go,
    identity_atomic.go).
 */
module IdentityEnds {
  import opened Wrappers
  import opened IdentityDb
  import opened IdentitySteps
  import T = IdentityTrails

  // --- Every call ends by itself ------------------------------------------------------------------

  /** How far a call still has to go; what is left to cache comes second. */
  function Left(pc: Pc): (nat, nat) {
    match pc
    case TryAccount => (12, 0)
    case TryDistinct(_) => (11, 0)
    case FindAccount => (10, 0)
    case FindDistinct(_) => (9, 0)
    case BindAccountTo(_) => (8, 0)
    case Alloc(_) => (7, 0)
    case Insert(_, _) => (6, 0)
    case AdoptAccount(_) => (5, 0)
    case AdoptBind(_) => (4, 0)
    case Verify(_) => (3, 0)
    case DeleteOrphan(_, _) => (2, 0)
    case BindDistinctTo(_) => (2, 0)
    case Store(ops, _) => (1, |ops|)
    case Done(_) => (0, 0)
    case Failed => (0, 0)
  }

  predicate Less(a: (nat, nat), b: (nat, nat)) {
    a.0 < b.0 || (a.0 == b.0 && a.1 < b.1)
  }

  /** Whatever the other calls do, each step of a call takes it further: there is no way round. */
  lemma StepsLeadToTheEnd(s: State, call: Call, pc: Pc, found: Option<int>)
    requires Readable(s.docs, call, pc, found)
    ensures Less(Left(NextPc(s, call, pc, found)), Left(pc))
  {
    hide CacheMapping, InsertConflicts, BindAccountOutcome;
  }

  /** And a call that has not ended can always make one. */
  lemma CallsCanMove(s: State, p: int) returns (found: Option<int>)
    requires p in s.procs && !s.procs[p].pc.Done? && !s.procs[p].pc.Failed?
    ensures Enabled(s, Move(p, found))
  {
    var call, pc := s.procs[p].call, s.procs[p].pc;
    found := None;
    if (pc.FindAccount? || pc.AdoptAccount?) && AccountTaken(s.docs, call.account) {
      var id :| id in s.docs && s.docs[id].account == call.account;
      found := Some(id);
    } else if (pc.FindDistinct? || pc.Verify?) && DistinctTaken(s.docs, call.distinct) {
      var id :| id in s.docs && call.distinct in s.docs[id].distincts;
      found := Some(id);
    }
  }

  // --- With an answer, if the database does not fail -------------------------------------------------

  /** Nothing has failed, and an account that refused an insert is still there. */
  ghost predicate NoneFailed(s: State) {
    forall p :: p in s.procs ==>
      !s.procs[p].pc.Failed? && (s.procs[p].pc.AdoptAccount? ==> AccountTaken(s.docs, s.procs[p].call.account))
  }

  lemma TakenStays(docs: Docs, docs': Docs, a: string)
    requires Keeps(docs, docs') && a != "" && AccountTaken(docs, a)
    ensures AccountTaken(docs', a)
  {
    var id :| id in docs && docs[id].account == a;
    assert Holds(docs', a, id);
  }

  lemma OwnDoesNotFail(s: State, p: int, found: Option<int>)
    requires Inv(s) && NoneFailed(s) && p in s.procs
    requires Readable(s.docs, s.procs[p].call, s.procs[p].pc, found)
    ensures var pr := s.procs[p]; var pc' := NextPc(s, pr.call, pr.pc, found);
            && !pc'.Failed?
            && (pc'.AdoptAccount? ==> pr.call.account != "" && AccountTaken(s.docs, pr.call.account)
                                      && NextDocs(s, pr.call, pr.pc) == s.docs)
  {
    assert ProcInv(s, s.procs[p]);
    hide UniqueAccounts, CacheMapping;
  }

  lemma StepDoesNotFail(s: State, e: Event)
    requires Inv(s) && NoneFailed(s) && Enabled(s, e) && SafeDelete(s, e) && !e.Fault?
    ensures NoneFailed(Next(s, e))
  {
    SafeStepKeeps(s, e);
    var s' := Next(s, e);
    if e.Move? {
      OwnDoesNotFail(s, e.p, e.found);
    }
    hide NextPc, NextDocs, Keeps, AccountTaken, SafeDelete;
    forall q | q in s.procs && s.procs[q].pc.AdoptAccount? && q != e.p
      ensures AccountTaken(s'.docs, s.procs[q].call.account)
    {
      assert ProcInv(s, s.procs[q]);
      TakenStays(s.docs, s'.docs, s.procs[q].call.account);
    }
  }

  lemma {:induction false} RunDoesNotFail(s: State, events: seq<Event>)
    requires Inv(s) && NoneFailed(s) && IsRun(s, events) && IsSafeRun(s, events)
    requires forall e :: e in events ==> !e.Fault?
    ensures NoneFailed(Run(s, events))
    decreases |events|
  {
    hide Next, Enabled, Inv, NoneFailed, SafeDelete;
    if events != [] {
      assert events[0] in events;
      NextKeepsInv(s, events[0]);
      StepDoesNotFail(s, events[0]);
      RunDoesNotFail(Next(s, events[0]), events[1..]);
    }
  }

  /** In every run from empty in which the database does not fail and orphan deletes meet their guard, no call
      fails: what has ended has an answer. */
  lemma CallsAreAnswered(events: seq<Event>, p: int)
    requires IsRun(INIT, events) && IsSafeRun(INIT, events) && forall e :: e in events ==> !e.Fault?
    requires p in Run(INIT, events).procs
    ensures !Run(INIT, events).procs[p].pc.Failed?
  {
    hide IsRun, IsSafeRun, Run;
    RunDoesNotFail(INIT, events);
  }

  // --- And leave it in the cache ------------------------------------------------------------------------

  /** The id that a later call of the same kind looks for first. */
  predicate IsCached(c: Cache, call: Call) {
    if call.account != "" then call.account in c.accounts else call.distinct in c.distincts
  }

  predicate Caches(op: CacheOp, call: Call) {
    if call.account != "" then op.PutAccount? && op.account == call.account
    else op.PutDistinct? && op.distinct == call.distinct
  }

  predicate WillBeCached(c: Cache, call: Call, pc: Pc) {
    match pc
    case TryDistinct(hit) => hit.Some? ==> IsCached(c, call)
    case FindDistinct(am) => am.Some? ==> am.value.m.account == call.account != ""
    case AdoptBind(existing) => existing.m.account == call.account
    case BindDistinctTo(am) => am.m.account == call.account
    case DeleteOrphan(_, existing) => call.distinct in existing.m.distincts
    case Store(ops, _) => IsCached(c, call) || exists op :: op in ops && Caches(op, call)
    case Done(_) => IsCached(c, call)
    case _ => true
  }

  ghost predicate Caching(s: State) {
    forall p :: p in s.procs ==> WillBeCached(CacheOf(s.caches, s.procs[p].call.pod), s.procs[p].call, s.procs[p].pc)
  }

  lemma MappingCaches(l: Loaded, call: Call, more: seq<CacheOp>)
    requires if call.account != "" then l.m.account == call.account else call.distinct in l.m.distincts
    ensures exists op :: op in CacheMapping(l) + more && Caches(op, call)
  {
    var ops := CacheMapping(l) + more;
    if call.account != "" {
      assert ops[0] == PutAccount(call.account, l.id);
      assert ops[0] in ops && Caches(ops[0], call);
    } else {
      var i :| 0 <= i < |l.m.distincts| && l.m.distincts[i] == call.distinct;
      var j := |ops| - |more| - |l.m.distincts| + i;
      assert ops[j] == PutDistinct(call.distinct, l.id);
      assert ops[j] in ops && Caches(ops[j], call);
    }
  }

  lemma OneMapping(l: Loaded, call: Call)
    requires if call.account != "" then l.m.account == call.account else call.distinct in l.m.distincts
    ensures exists op :: op in CacheMapping(l) && Caches(op, call)
  {
    MappingCaches(l, call, []);
    assert CacheMapping(l) + [] == CacheMapping(l);
  }

  // What the call has cached when its access is done.
  function CacheAfter(s: State, pr: Proc): Cache {
    var c := CacheOf(s.caches, pr.call.pod);
    if pr.pc.Store? && pr.pc.ops != [] then Put(c, pr.pc.ops[0]) else c
  }

  lemma FoundCaches(s: State, pr: Proc, found: Option<int>)
    requires ProcInv(s, pr) && Readable(s.docs, pr.call, pr.pc, found)
    requires WillBeCached(CacheOf(s.caches, pr.call.pod), pr.call, pr.pc)
    requires pr.pc.FindAccount? || pr.pc.FindDistinct? || pr.pc.AdoptAccount? || pr.pc.Verify?
    ensures WillBeCached(CacheAfter(s, pr), pr.call, NextPc(s, pr.call, pr.pc, found))
  {
    hide CacheMapping;
    if found.Some? {
      var l := Load(s.docs, found).value;
      if pr.pc.FindDistinct? && pr.pc.loaded.Some? {
        MappingCaches(pr.pc.loaded.value, pr.call, CacheMapping(l));
      } else if !(pr.pc.FindDistinct? && pr.call.account != "") {
        OneMapping(l, pr.call);
      }
    }
    if pr.pc.Verify? {
      assert Caches(PutDistinct(pr.call.distinct, pr.pc.id), pr.call);
    }
  }

  lemma MadeCaches(s: State, pr: Proc, found: Option<int>)
    requires ProcInv(s, pr) && WillBeCached(CacheOf(s.caches, pr.call.pod), pr.call, pr.pc)
    requires pr.pc.Insert? || pr.pc.AdoptBind? || pr.pc.DeleteOrphan? || pr.pc.BindDistinctTo? || pr.pc.BindAccountTo?
    ensures WillBeCached(CacheAfter(s, pr), pr.call, NextPc(s, pr.call, pr.pc, found))
  {
    hide CacheMapping, InsertConflicts, BindAccountOutcome;
    match pr.pc
    case AdoptBind(l) => MappingCaches(l, pr.call, [PutDistinct(pr.call.distinct, l.id)]);
    case BindDistinctTo(l) => MappingCaches(l, pr.call, [PutDistinct(pr.call.distinct, l.id)]);
    case DeleteOrphan(_, l) => OneMapping(l, pr.call);
    case Insert(_, id) => assert Caches(PutAccount(pr.call.account, id), pr.call) || pr.call.account == "";
    case BindAccountTo(dm) => assert Caches(PutAccount(pr.call.account, dm.id), pr.call);
  }

  lemma HitCaches(s: State, pr: Proc, found: Option<int>)
    requires Readable(s.docs, pr.call, pr.pc, found) && ProcInv(s, pr)
    requires WillBeCached(CacheOf(s.caches, pr.call.pod), pr.call, pr.pc)
    requires pr.pc.TryAccount? || pr.pc.TryDistinct? || pr.pc.Alloc? || pr.pc.Store?
    ensures WillBeCached(CacheAfter(s, pr), pr.call, NextPc(s, pr.call, pr.pc, found))
  {
    if pr.pc.Store? && pr.pc.ops != [] && !IsCached(CacheAfter(s, pr), pr.call) {
      var op :| op in pr.pc.ops && Caches(op, pr.call);
      assert op != pr.pc.ops[0];
      assert op in pr.pc.ops[1..];
    }
  }

  lemma OwnCaches(s: State, pr: Proc, found: Option<int>)
    requires Readable(s.docs, pr.call, pr.pc, found) && ProcInv(s, pr)
    requires WillBeCached(CacheOf(s.caches, pr.call.pod), pr.call, pr.pc)
    ensures WillBeCached(CacheAfter(s, pr), pr.call, NextPc(s, pr.call, pr.pc, found))
  {
    hide ProcInv, WillBeCached, NextPc, CacheAfter;
    match pr.pc
    case TryAccount => HitCaches(s, pr, found);
    case TryDistinct(_) => HitCaches(s, pr, found);
    case Alloc(_) => HitCaches(s, pr, found);
    case Store(_, _) => HitCaches(s, pr, found);
    case FindAccount => FoundCaches(s, pr, found);
    case FindDistinct(_) => FoundCaches(s, pr, found);
    case AdoptAccount(_) => FoundCaches(s, pr, found);
    case Verify(_) => FoundCaches(s, pr, found);
    case _ => MadeCaches(s, pr, found);
  }

  lemma StaysCached(c: Cache, c': Cache, call: Call, pc: Pc)
    requires WillBeCached(c, call, pc) && c.accounts.Keys <= c'.accounts.Keys && c.distincts.Keys <= c'.distincts.Keys
    ensures WillBeCached(c', call, pc)
  {
    hide Caches;
  }

  lemma StepCaches(s: State, e: Event)
    requires Inv(s) && Caching(s) && Enabled(s, e)
    ensures Caching(Next(s, e))
  {
    var s' := Next(s, e);
    if !e.Begin? {
      var pr := s.procs[e.p];
      assert ProcInv(s, pr);
      if e.Move? {
        OwnCaches(s, pr, e.found);
      }
      forall q | q in s.procs && q != e.p
        ensures WillBeCached(CacheOf(s'.caches, s.procs[q].call.pod), s.procs[q].call, s.procs[q].pc)
      {
        hide WillBeCached, NextPc, NextDocs, Inv;
        StaysCached(CacheOf(s.caches, s.procs[q].call.pod), CacheOf(s'.caches, s.procs[q].call.pod),
                    s.procs[q].call, s.procs[q].pc);
      }
      hide Inv, ProcInv, NextPc, NextDocs, IsCached;
    }
  }

  lemma {:induction false} RunCaches(s: State, events: seq<Event>)
    requires Inv(s) && Caching(s) && IsRun(s, events)
    ensures Caching(Run(s, events))
    decreases |events|
  {
    hide Next, Enabled, Inv, Caching;
    if events != [] {
      NextKeepsInv(s, events[0]);
      StepCaches(s, events[0]);
      RunCaches(Next(s, events[0]), events[1..]);
    }
  }

  /** Whatever else runs: once a call has its answer, its pod has the call's account in its cache, or the distinct
      id of a call without one. */
  lemma AnsweredIsCached(events: seq<Event>, p: int)
    requires IsRun(INIT, events)
    requires p in Run(INIT, events).procs && Run(INIT, events).procs[p].pc.Done?
    ensures var s := Run(INIT, events); IsCached(CacheOf(s.caches, s.procs[p].call.pod), s.procs[p].call)
  {
    hide IsRun, Run, IsCached;
    RunCaches(INIT, events);
  }

  // --- And its distinct id, if that is known to belong to the answer or to another mapping -------------------

  /** The call's distinct id is settled: a visitor's; or its account had a mapping; or no mapping had it, so that it
      was added to the answer's.  It is not when the account was bound to its mapping, or got a new one beside it. */
  predicate Settled(call: Call, t: T.Trail) {
    call.distinct != "" &&
    (call.account == "" || t.byDistinct == Some(None) || (t.byAccount.Some? && t.byAccount.value.Some?)
     || T.AllCached(call, t))
  }

  predicate PutsDistinct(ops: seq<CacheOp>, d: string) {
    exists op :: op in ops && op.PutDistinct? && op.distinct == d
  }

  predicate WillHaveDistinct(c: Cache, call: Call, pc: Pc, t: T.Trail) {
    match pc
    case Store(ops, _) => Settled(call, t) ==> call.distinct in c.distincts || PutsDistinct(ops, call.distinct)
    case Done(_) => Settled(call, t) ==> call.distinct in c.distincts
    case _ => true
  }

  lemma LastPut(ops: seq<CacheOp>, d: string, id: int)
    ensures PutsDistinct(ops + [PutDistinct(d, id)], d)
  {
    var all := ops + [PutDistinct(d, id)];
    assert all[|ops|] in all;
  }

  lemma MappingPuts(more: seq<CacheOp>, l: Loaded, d: string)
    requires d in l.m.distincts
    ensures PutsDistinct(CacheMapping(l), d) && PutsDistinct(more + CacheMapping(l), d)
  {
    OneMapping(l, Call(0, "", d));
    var op :| op in CacheMapping(l) && Caches(op, Call(0, "", d));
    assert op in more + CacheMapping(l);
  }

  lemma ReadHasDistinct(s: State, pr: Proc, found: Option<int>, t: T.Trail)
    requires Readable(s.docs, pr.call, pr.pc, found) && T.TrailOk(pr.call, pr.pc, t)
    requires pr.pc.FindAccount? || pr.pc.FindDistinct? || pr.pc.AdoptAccount? || pr.pc.Verify?
    ensures WillHaveDistinct(CacheAfter(s, pr), pr.call, NextPc(s, pr.call, pr.pc, found), T.NoteRead(s, pr, found, t))
  {
    hide CacheMapping, CacheOf;
    if found.Some? && (pr.pc.FindDistinct? || pr.pc.Verify?) {
      var l := Load(s.docs, found).value;
      MappingPuts(if pr.pc.FindDistinct? && pr.pc.loaded.Some? then CacheMapping(pr.pc.loaded.value) else [], l,
                  pr.call.distinct);
    }
    if pr.pc.Verify? {
      LastPut([], pr.call.distinct, pr.pc.id);
      assert [] + [PutDistinct(pr.call.distinct, pr.pc.id)] == [PutDistinct(pr.call.distinct, pr.pc.id)];
    }
  }

  lemma WriteHasDistinct(s: State, pr: Proc, found: Option<int>, t: T.Trail)
    requires Readable(s.docs, pr.call, pr.pc, found) && T.TrailOk(pr.call, pr.pc, t)
    requires WillBeCached(CacheOf(s.caches, pr.call.pod), pr.call, pr.pc)
    requires pr.pc.Insert? || pr.pc.AdoptBind? || pr.pc.DeleteOrphan? || pr.pc.BindDistinctTo? || pr.pc.BindAccountTo?
    ensures WillHaveDistinct(CacheAfter(s, pr), pr.call, NextPc(s, pr.call, pr.pc, found), T.NoteRead(s, pr, found, t))
  {
    hide CacheMapping, CacheOf, InsertConflicts, BindAccountOutcome, T.NoteJoin;
    match pr.pc
    case AdoptBind(l) => LastPut(CacheMapping(l), pr.call.distinct, l.id);
    case BindDistinctTo(l) => LastPut(CacheMapping(l), pr.call.distinct, l.id);
    case DeleteOrphan(_, l) => assert pr.call.account == ""; MappingPuts([], l, pr.call.distinct);
    case Insert(kind, id) =>
      LastPut([PutAccount(pr.call.account, id)], pr.call.distinct, id);
      assert [PutAccount(pr.call.account, id)] + [PutDistinct(pr.call.distinct, id)] ==
             [PutAccount(pr.call.account, id), PutDistinct(pr.call.distinct, id)];
    case BindAccountTo(_) =>
  }

  lemma CacheHasDistinct(s: State, pr: Proc, found: Option<int>, t: T.Trail)
    requires Readable(s.docs, pr.call, pr.pc, found) && T.TrailOk(pr.call, pr.pc, t)
    requires WillHaveDistinct(CacheOf(s.caches, pr.call.pod), pr.call, pr.pc, t)
    requires pr.pc.TryAccount? || pr.pc.TryDistinct? || pr.pc.Alloc? || pr.pc.Store?
    ensures WillHaveDistinct(CacheAfter(s, pr), pr.call, NextPc(s, pr.call, pr.pc, found), T.NoteRead(s, pr, found, t))
  {
    hide T.Explains, T.NeedsNew;
    if pr.pc.Store? && pr.pc.ops != [] && Settled(pr.call, t) && pr.call.distinct !in CacheAfter(s, pr).distincts {
      var op :| op in pr.pc.ops && op.PutDistinct? && op.distinct == pr.call.distinct;
      assert op != pr.pc.ops[0];
      assert op in pr.pc.ops[1..];
    }
  }

  lemma OwnHasDistinct(s: State, pr: Proc, found: Option<int>, t: T.Trail)
    requires Readable(s.docs, pr.call, pr.pc, found) && T.TrailOk(pr.call, pr.pc, t)
    requires WillBeCached(CacheOf(s.caches, pr.call.pod), pr.call, pr.pc)
    requires WillHaveDistinct(CacheOf(s.caches, pr.call.pod), pr.call, pr.pc, t)
    ensures WillHaveDistinct(CacheAfter(s, pr), pr.call, NextPc(s, pr.call, pr.pc, found), T.Note(s, pr, found, t))
  {
    hide WillHaveDistinct, WillBeCached, T.TrailOk, NextPc, CacheAfter, NextDocs, T.NoteRead;
    var r := T.NoteRead(s, pr, found, t);
    SameReads(CacheAfter(s, pr), pr.call, NextPc(s, pr.call, pr.pc, found), r, T.Note(s, pr, found, t));
    match pr.pc
    case TryAccount => CacheHasDistinct(s, pr, found, t);
    case TryDistinct(_) => CacheHasDistinct(s, pr, found, t);
    case Alloc(_) => CacheHasDistinct(s, pr, found, t);
    case Store(_, _) => CacheHasDistinct(s, pr, found, t);
    case FindAccount => ReadHasDistinct(s, pr, found, t);
    case FindDistinct(_) => ReadHasDistinct(s, pr, found, t);
    case AdoptAccount(_) => ReadHasDistinct(s, pr, found, t);
    case Verify(_) => ReadHasDistinct(s, pr, found, t);
    case _ => WriteHasDistinct(s, pr, found, t);
  }

  lemma SameReads(c: Cache, call: Call, pc: Pc, t: T.Trail, t': T.Trail)
    requires t'.byAccount == t.byAccount && t'.byDistinct == t.byDistinct
    requires t'.cachedAccount == t.cachedAccount && t'.cachedDistinct == t.cachedDistinct
    ensures WillHaveDistinct(c, call, pc, t) <==> WillHaveDistinct(c, call, pc, t')
  {
  }

  ghost predicate HavingDistincts(s: State, ts: T.Trails) {
    ts.Keys == s.procs.Keys && forall p :: p in s.procs ==>
      WillHaveDistinct(CacheOf(s.caches, s.procs[p].call.pod), s.procs[p].call, s.procs[p].pc, ts[p])
  }

  lemma StaysHad(c: Cache, c': Cache, call: Call, pc: Pc, t: T.Trail)
    requires WillHaveDistinct(c, call, pc, t) && c.distincts.Keys <= c'.distincts.Keys
    ensures WillHaveDistinct(c', call, pc, t)
  {
    hide Settled, PutsDistinct;
  }

  lemma StepHasDistincts(s: State, e: Event, ts: T.Trails)
    requires T.AllOk(s, ts) && Caching(s) && HavingDistincts(s, ts) && Enabled(s, e)
    ensures HavingDistincts(Next(s, e), T.NextTrails(s, ts, e))
  {
    hide Inv, T.OwnersOk, T.TrailOk, WillBeCached, WillHaveDistinct, NextPc, NextDocs, T.Note, T.ReadsMatch, Readable;
    var s', ts' := Next(s, e), T.NextTrails(s, ts, e);
    if e.Begin? {
      NotYet(CacheOf(s.caches, e.call.pod), e.call, Start(e.call), T.NOTHING);
    } else if e.Move? {
      OwnHasDistinct(s, s.procs[e.p], e.found, ts[e.p]);
    } else {
      NotYet(CacheOf(s'.caches, s.procs[e.p].call.pod), s.procs[e.p].call, Pc.Failed, ts'[e.p]);
    }
    forall q | q in s.procs && q != e.p
      ensures WillHaveDistinct(CacheOf(s'.caches, s.procs[q].call.pod), s.procs[q].call, s.procs[q].pc, ts[q])
    {
      StaysHad(CacheOf(s.caches, s.procs[q].call.pod), CacheOf(s'.caches, s.procs[q].call.pod),
               s.procs[q].call, s.procs[q].pc, ts[q]);
    }
  }

  lemma NotYet(c: Cache, call: Call, pc: Pc, t: T.Trail)
    requires !pc.Store? && !pc.Done?
    ensures WillHaveDistinct(c, call, pc, t)
  {
  }

  lemma {:induction false} RunHasDistincts(s: State, ts: T.Trails, events: seq<Event>)
    requires T.AllOk(s, ts) && Caching(s) && HavingDistincts(s, ts) && IsRun(s, events)
    ensures HavingDistincts(Run(s, events), T.RunTrails(s, ts, events))
    decreases |events|
  {
    hide Next, Enabled, T.AllOk, Caching, HavingDistincts, T.NextTrails;
    if events != [] {
      T.StepFollows(s, events[0], ts);
      AllOkMeans(s, ts);
      StepCaches(s, events[0]);
      StepHasDistincts(s, events[0], ts);
      RunHasDistincts(Next(s, events[0]), T.NextTrails(s, ts, events[0]), events[1..]);
    }
  }

  lemma AllOkMeans(s: State, ts: T.Trails)
    requires T.AllOk(s, ts)
    ensures Inv(s) && ts.Keys == s.procs.Keys
  {
  }

  /** And its distinct id whenever that is settled. */
  lemma SettledIsCached(events: seq<Event>, p: int)
    requires IsRun(INIT, events)
    requires p in Run(INIT, events).procs && Run(INIT, events).procs[p].pc.Done?
    ensures p in T.RunTrails(INIT, map[], events)
    ensures var s := Run(INIT, events); var call := s.procs[p].call;
            Settled(call, T.RunTrails(INIT, map[], events)[p]) ==>
              call.distinct in CacheOf(s.caches, call.pod).distincts
  {
    hide IsRun, Run, T.RunTrails, Settled;
    T.EmptyFollows();
    RunHasDistincts(INIT, map[], events);
  }
}
