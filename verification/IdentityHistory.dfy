/** What answers and cache entries name, over every interleaving (internal/dao/store/identity_atomic.go,
    identity_cache.go), and that calls end.
 */
module IdentityHistory {
  import opened Wrappers
  import opened IdentityDb
  import opened IdentitySteps

  // `had` and `held`: which distinct ids and accounts each mapping ever had.  `missed`: which distinct ids a call
  // tried to add to a mapping that was gone, which the database reports as a success.
  datatype History = History(had: set<(int, string)>, held: set<(int, string)>, missed: set<(int, string)>)

  const NO_HISTORY := History({}, {}, {})

  function HadIn(docs: Docs): set<(int, string)> {
    set id, d | id in docs && d in docs[id].distincts :: (id, d)
  }

  function HeldIn(docs: Docs): set<(int, string)> {
    set id | id in docs :: (id, docs[id].account)
  }

  /** The mapping a call is about to add its distinct id to. */
  function JoinTarget(pc: Pc): Option<int> {
    match pc
    case AdoptBind(existing) => Some(existing.id)
    case BindDistinctTo(am) => Some(am.id)
    case _ => None
  }

  function MissedBy(s: State, pr: Proc): set<(int, string)> {
    var to := JoinTarget(pr.pc);
    if to.Some? && to.value !in s.docs then {(to.value, pr.call.distinct)} else {}
  }

  function Record(s: State, h: History, e: Event): History
    requires Enabled(s, e)
  {
    var docs' := Next(s, e).docs;
    History(h.had + HadIn(docs'), h.held + HeldIn(docs'),
            if e.Begin? || (e.Fault? && !e.applied) then h.missed else h.missed + MissedBy(s, s.procs[e.p]))
  }

  ghost function RunHistory(s: State, h: History, events: seq<Event>): History
    requires IsRun(s, events)
    decreases |events|
  {
    if events == [] then h else RunHistory(Next(s, events[0]), Record(s, h, events[0]), events[1..])
  }

  // --- What the history means -----------------------------------------------------------------------

  /** At some moment of the run this mapping had this distinct id. */
  ghost predicate EverHad(s: State, events: seq<Event>, id: int, d: string)
    requires IsRun(s, events)
    decreases |events|
  {
    || (id in s.docs && d in s.docs[id].distincts)
    || (events != [] && EverHad(Next(s, events[0]), events[1..], id, d))
  }

  /** At some moment of the run this mapping had this account. */
  ghost predicate EverHeld(s: State, events: seq<Event>, id: int, a: string)
    requires IsRun(s, events)
    decreases |events|
  {
    Holds(s.docs, a, id) || (events != [] && EverHeld(Next(s, events[0]), events[1..], id, a))
  }

  lemma {:induction false} HistoryMeans(s: State, h: History, events: seq<Event>, id: int, x: string)
    requires IsRun(s, events) && HadIn(s.docs) <= h.had && HeldIn(s.docs) <= h.held
    ensures (id, x) in RunHistory(s, h, events).had <==> (id, x) in h.had || EverHad(s, events, id, x)
    ensures (id, x) in RunHistory(s, h, events).held <==> (id, x) in h.held || EverHeld(s, events, id, x)
    decreases |events|
  {
    hide Next, Enabled;
    if events != [] {
      HistoryMeans(Next(s, events[0]), Record(s, h, events[0]), events[1..], id, x);
    }
  }

  // --- What calls and caches know ----------------------------------------------------------------------

  predicate Knows(h: History, id: int, m: Mapping) {
    (id, m.account) in h.held && forall d :: d in m.distincts ==> (id, d) in h.had
  }

  predicate OpKnown(h: History, op: CacheOp) {
    match op
    case PutAccount(a, id) => (id, a) in h.held
    case PutDistinct(d, id) => (id, d) in h.had || (id, d) in h.missed
  }

  predicate CacheKnown(h: History, c: Cache) {
    && (forall a :: a in c.accounts ==> (c.accounts[a], a) in h.held)
    && (forall d :: d in c.distincts ==> (c.distincts[d], d) in h.had || (c.distincts[d], d) in h.missed)
  }

  /** An answer's mapping had the account of the call, or the distinct id of one without an account. */
  predicate AnswerKnown(h: History, call: Call, answer: int) {
    if call.account != "" then (answer, call.account) in h.held
    else (answer, call.distinct) in h.had || (answer, call.distinct) in h.missed
  }

  predicate PcKnown(h: History, call: Call, pc: Pc) {
    match pc
    case TryDistinct(hit) => hit.Some? ==> (hit.value, call.account) in h.held && call.account != ""
    case FindDistinct(am) => am.Some? ==> Knows(h, am.value.id, am.value.m) && am.value.m.account == call.account != ""
    case AdoptBind(existing) => Knows(h, existing.id, existing.m) && existing.m.account == call.account
    case Verify(id) => (id, call.distinct) in h.had
    case DeleteOrphan(_, existing) => Knows(h, existing.id, existing.m) && call.distinct in existing.m.distincts
    case BindDistinctTo(am) => Knows(h, am.id, am.m) && am.m.account == call.account
    case BindAccountTo(dm) => Knows(h, dm.id, dm.m)
    case Store(ops, answer) => AnswerKnown(h, call, answer) && forall op :: op in ops ==> OpKnown(h, op)
    case Done(answer) => AnswerKnown(h, call, answer)
    case _ => true
  }

  ghost predicate Known(s: State, h: History) {
    && Inv(s)
    && HadIn(s.docs) <= h.had && HeldIn(s.docs) <= h.held
    && (forall pod :: pod in s.caches ==> CacheKnown(h, s.caches[pod]))
    && (forall p :: p in s.procs ==> PcKnown(h, s.procs[p].call, s.procs[p].pc))
  }

  predicate Grows(h: History, h': History) {
    h.had <= h'.had && h.held <= h'.held && h.missed <= h'.missed
  }

  lemma StaysKnown(h: History, h': History, call: Call, pc: Pc)
    requires Grows(h, h') && PcKnown(h, call, pc)
    ensures PcKnown(h', call, pc)
  {
    if pc.Store? {
      forall op | op in pc.ops ensures OpKnown(h', op) {
        assert OpKnown(h, op);
      }
    }
  }

  lemma LoadIsKnown(docs: Docs, h: History, found: Option<int>)
    requires HadIn(docs) <= h.had && HeldIn(docs) <= h.held && (found.Some? ==> found.value in docs)
    ensures found.Some? ==> Knows(h, found.value, docs[found.value])
  {
    if found.Some? {
      var id := found.value;
      assert (id, docs[id].account) in HeldIn(docs);
      forall d | d in docs[id].distincts ensures (id, d) in h.had {
        assert (id, d) in HadIn(docs);
      }
    }
  }

  lemma CachingIsKnown(h: History, l: Loaded)
    requires Knows(h, l.id, l.m)
    ensures forall op :: op in CacheMapping(l) ==> OpKnown(h, op)
  {
  }

  // --- Every step keeps it --------------------------------------------------------------------------------

  // The history after an access of one call.
  function Noted(s: State, h: History, pr: Proc): History {
    var docs' := NextDocs(s, pr.call, pr.pc);
    History(h.had + HadIn(docs'), h.held + HeldIn(docs'), h.missed + MissedBy(s, pr))
  }

  lemma CacheHitKnown(s: State, h: History, pr: Proc, found: Option<int>)
    requires Known(s, h) && ProcInv(s, pr) && PcKnown(h, pr.call, pr.pc) && Readable(s.docs, pr.call, pr.pc, found)
    requires pr.pc.TryAccount? || pr.pc.TryDistinct? || pr.pc.Store? || pr.pc.Alloc?
    ensures PcKnown(h, pr.call, NextPc(s, pr.call, pr.pc, found))
  {
    assert pr.call.pod in s.caches ==> CacheKnown(h, s.caches[pr.call.pod]);
    hide Inv, HadIn, HeldIn, AnswerKnown, Knows;
    if pr.pc.Store? && pr.pc.ops != [] {
      assert forall op :: op in pr.pc.ops[1..] ==> op in pr.pc.ops;
    }
  }

  lemma FoundIsKnown(s: State, h: History, pr: Proc, found: Option<int>)
    requires Known(s, h) && ProcInv(s, pr) && PcKnown(h, pr.call, pr.pc) && Readable(s.docs, pr.call, pr.pc, found)
    requires pr.pc.FindAccount? || pr.pc.FindDistinct? || pr.pc.AdoptAccount? || pr.pc.Verify?
    ensures PcKnown(h, pr.call, NextPc(s, pr.call, pr.pc, found))
  {
    LoadIsKnown(s.docs, h, found);
    if found.Some? {
      CachingIsKnown(h, Load(s.docs, found).value);
    }
    if pr.pc.FindDistinct? && pr.pc.loaded.Some? {
      CachingIsKnown(h, pr.pc.loaded.value);
    }
    hide Inv, HadIn, HeldIn, CacheMapping, CacheKnown;
  }

  lemma WrittenIsKnown(s: State, h: History, pr: Proc, found: Option<int>)
    requires Known(s, h) && ProcInv(s, pr) && PcKnown(h, pr.call, pr.pc)
    requires pr.pc.Insert? || pr.pc.AdoptBind? || pr.pc.DeleteOrphan? || pr.pc.BindDistinctTo? || pr.pc.BindAccountTo?
    ensures PcKnown(Noted(s, h, pr), pr.call, NextPc(s, pr.call, pr.pc, found))
  {
    var h' := Noted(s, h, pr);
    var docs' := NextDocs(s, pr.call, pr.pc);
    match pr.pc {
      case Insert(kind, id) =>
        InsertIsKnown(s, h, pr, found);
      case DeleteOrphan(_, existing) =>
        StaysKnown(h, h', pr.call, pr.pc);
        CachingIsKnown(h', existing);
      case AdoptBind(existing) =>
        StaysKnown(h, h', pr.call, pr.pc);
        CachingIsKnown(h', existing);
        JoinIsKnown(s, h, pr, existing.id);
      case BindDistinctTo(am) =>
        StaysKnown(h, h', pr.call, pr.pc);
        CachingIsKnown(h', am);
        JoinIsKnown(s, h, pr, am.id);
      case BindAccountTo(dm) =>
        if BindAccountOutcome(s.docs, dm.id, pr.call.account).Bound? {
          assert docs'[dm.id].account == pr.call.account;
          assert (dm.id, pr.call.account) in HeldIn(docs');
        }
    }
    hide Inv, HadIn, HeldIn, CacheMapping, CacheKnown, NextDocs;
  }

  lemma InsertIsKnown(s: State, h: History, pr: Proc, found: Option<int>)
    requires pr.pc.Insert? && ProcInv(s, pr)
    ensures PcKnown(Noted(s, h, pr), pr.call, NextPc(s, pr.call, pr.pc, found))
  {
    var id, m := pr.pc.id, NewMapping(pr.call, pr.pc.kind);
    var docs' := NextDocs(s, pr.call, pr.pc);
    if !InsertConflicts(s.docs, id, m) {
      assert docs'[id] == m;
      assert (id, m.account) in HeldIn(docs');
      forall d | d in m.distincts ensures (id, d) in HadIn(docs') {
      }
      assert !pr.pc.kind.ForAccount? ==> pr.call.distinct in m.distincts;
      hide NextDocs, HadIn, HeldIn, MissedBy, InsertConflicts;
    }
  }

  lemma JoinIsKnown(s: State, h: History, pr: Proc, id: int)
    requires JoinTarget(pr.pc) == Some(id) && NextDocs(s, pr.call, pr.pc) == BindDistinct(s.docs, id, pr.call.distinct)
    ensures OpKnown(Noted(s, h, pr), PutDistinct(pr.call.distinct, id))
  {
    var docs', d := BindDistinct(s.docs, id, pr.call.distinct), pr.call.distinct;
    if id in s.docs {
      assert d !in s.docs[id].distincts ==> docs'[id].distincts[|s.docs[id].distincts|] == d;
      assert id in docs' && d in docs'[id].distincts;
      assert (id, d) in HadIn(docs');
    }
  }

  lemma OwnIsKnown(s: State, h: History, pr: Proc, found: Option<int>)
    requires Known(s, h) && ProcInv(s, pr) && PcKnown(h, pr.call, pr.pc) && Readable(s.docs, pr.call, pr.pc, found)
    ensures PcKnown(Noted(s, h, pr), pr.call, NextPc(s, pr.call, pr.pc, found))
  {
    var h' := Noted(s, h, pr);
    hide Known, ProcInv, PcKnown, NextPc, Noted;
    match pr.pc
    case TryAccount => CacheHitKnown(s, h, pr, found); StaysNoted(s, h, pr, found);
    case TryDistinct(_) => CacheHitKnown(s, h, pr, found); StaysNoted(s, h, pr, found);
    case Store(_, _) => CacheHitKnown(s, h, pr, found); StaysNoted(s, h, pr, found);
    case Alloc(_) => CacheHitKnown(s, h, pr, found); StaysNoted(s, h, pr, found);
    case FindAccount => FoundIsKnown(s, h, pr, found); StaysNoted(s, h, pr, found);
    case FindDistinct(_) => FoundIsKnown(s, h, pr, found); StaysNoted(s, h, pr, found);
    case AdoptAccount(_) => FoundIsKnown(s, h, pr, found); StaysNoted(s, h, pr, found);
    case Verify(_) => FoundIsKnown(s, h, pr, found); StaysNoted(s, h, pr, found);
    case _ => WrittenIsKnown(s, h, pr, found);
  }

  lemma StaysNoted(s: State, h: History, pr: Proc, found: Option<int>)
    requires Readable(s.docs, pr.call, pr.pc, found) && PcKnown(h, pr.call, NextPc(s, pr.call, pr.pc, found))
    ensures PcKnown(Noted(s, h, pr), pr.call, NextPc(s, pr.call, pr.pc, found))
  {
    hide PcKnown, NextPc;
    StaysKnown(h, Noted(s, h, pr), pr.call, NextPc(s, pr.call, pr.pc, found));
  }

  lemma CachesKnown(s: State, h: History, p: int, pc': Pc)
    requires Known(s, h) && p in s.procs
    ensures var s', h' := Access(s, p, pc'), Noted(s, h, s.procs[p]);
            forall pod :: pod in s'.caches ==> CacheKnown(h', s'.caches[pod])
  {
    var pr := s.procs[p];
    var s', h' := Access(s, p, pc'), Noted(s, h, pr);
    assert PcKnown(h, pr.call, pr.pc);
    forall pod | pod in s'.caches ensures CacheKnown(h', s'.caches[pod]) {
      if pod in s.caches { assert CacheKnown(h, s.caches[pod]); }
      if pr.pc.Store? && pr.pc.ops != [] { assert OpKnown(h, pr.pc.ops[0]); }
      hide Inv, HadIn, HeldIn, NextDocs;
    }
  }

  lemma AccessKeepsKnown(s: State, h: History, p: int, found: Option<int>, pc': Pc)
    requires Known(s, h) && p in s.procs && Readable(s.docs, s.procs[p].call, s.procs[p].pc, found)
    requires pc' == NextPc(s, s.procs[p].call, s.procs[p].pc, found) || pc' == Failed
    ensures Known(Access(s, p, pc'), Noted(s, h, s.procs[p]))
  {
    var pr := s.procs[p];
    var s', h' := Access(s, p, pc'), Noted(s, h, pr);
    AccessKeepsInv(s, p, found, pc');
    CachesKnown(s, h, p, pc');
    assert ProcInv(s, pr) && PcKnown(h, pr.call, pr.pc);
    OwnIsKnown(s, h, pr, found);
    assert PcKnown(h', pr.call, Failed);
    hide Inv, ProcInv, PcKnown, NextPc, NextDocs, HadIn, HeldIn, CacheKnown;
    forall q | q in s.procs && q != p ensures PcKnown(h', s'.procs[q].call, s'.procs[q].pc) {
      StaysKnown(h, h', s.procs[q].call, s.procs[q].pc);
    }
  }

  lemma StepKeepsKnown(s: State, h: History, e: Event)
    requires Known(s, h) && Enabled(s, e)
    ensures Known(Next(s, e), Record(s, h, e))
  {
    if e.Begin? || (e.Fault? && !e.applied) {
      NextKeepsInv(s, e);
      var s', h' := Next(s, e), Record(s, h, e);
      assert s'.docs == s.docs && s'.caches == s.caches && h' == h;
      assert PcKnown(h, s'.procs[e.p].call, s'.procs[e.p].pc);
      hide Inv, HadIn, HeldIn, CacheKnown, PcKnown;
    } else {
      var pr := s.procs[e.p];
      var pc' := if e.Move? then NextPc(s, pr.call, pr.pc, e.found) else Failed;
      AccessKeepsKnown(s, h, e.p, e.found, pc');
      assert Record(s, h, e) == Noted(s, h, pr);
      hide Known, NextPc, NextDocs, HadIn, HeldIn;
    }
  }

  lemma {:induction false} RunKeepsKnown(s: State, h: History, events: seq<Event>)
    requires Known(s, h) && IsRun(s, events)
    ensures Known(Run(s, events), RunHistory(s, h, events))
    decreases |events|
  {
    hide Known, Next, Enabled, Record;
    if events != [] {
      StepKeepsKnown(s, h, events[0]);
      RunKeepsKnown(Next(s, events[0]), Record(s, h, events[0]), events[1..]);
    }
  }

  lemma NothingKnown()
    ensures Known(INIT, NO_HISTORY)
  {
  }

  // --- Over whole runs from the empty collection -----------------------------------------------------

  /** Whatever is deleted when: a call with an account is answered with a mapping that had the account at some
      moment of the run, and so does every account-cache entry of every pod name one. */
  lemma AccountsNameHolders(events: seq<Event>, p: int, pod: int, a: string)
    requires IsRun(INIT, events)
    ensures var s := Run(INIT, events);
            && (p in s.procs && s.procs[p].pc.Done? && s.procs[p].call.account != "" ==>
                  EverHeld(INIT, events, s.procs[p].pc.answer, s.procs[p].call.account))
            && (pod in s.caches && a in s.caches[pod].accounts ==>
                  EverHeld(INIT, events, s.caches[pod].accounts[a], a))
  {
    var s, h := Run(INIT, events), RunHistory(INIT, NO_HISTORY, events);
    NothingKnown();
    RunKeepsKnown(INIT, NO_HISTORY, events);
    hide IsRun, Run, RunHistory, EverHeld, EverHad, Inv;
    if p in s.procs && s.procs[p].pc.Done? {
      assert PcKnown(h, s.procs[p].call, s.procs[p].pc);
      HistoryMeans(INIT, NO_HISTORY, events, s.procs[p].pc.answer, s.procs[p].call.account);
    }
    if pod in s.caches && a in s.caches[pod].accounts {
      assert CacheKnown(h, s.caches[pod]);
      HistoryMeans(INIT, NO_HISTORY, events, s.caches[pod].accounts[a], a);
    }
  }

  /** At some moment of the run a call tried to add this distinct id to this mapping after it was deleted. */
  ghost predicate EverMissed(s: State, events: seq<Event>, id: int, d: string)
    requires IsRun(s, events)
    decreases |events|
  {
    events != [] &&
    (((events[0].Move? || (events[0].Fault? && events[0].applied)) && (id, d) in MissedBy(s, s.procs[events[0].p]))
     || EverMissed(Next(s, events[0]), events[1..], id, d))
  }

  lemma {:induction false} MissedMeans(s: State, h: History, events: seq<Event>, id: int, x: string)
    requires IsRun(s, events)
    ensures (id, x) in RunHistory(s, h, events).missed <==> (id, x) in h.missed || EverMissed(s, events, id, x)
    decreases |events|
  {
    hide Next, Enabled, MissedBy;
    if events != [] {
      MissedMeans(Next(s, events[0]), Record(s, h, events[0]), events[1..], id, x);
    }
  }

  /** A distinct-cache entry of any pod, and the answer of a call without an account, name a mapping that had the
      distinct id at some moment of the run, or that a login failed to add it to because it was gone. */
  lemma DistinctsNameTheirMappings(events: seq<Event>, p: int, pod: int, d: string)
    requires IsRun(INIT, events)
    ensures var s := Run(INIT, events);
            && (p in s.procs && s.procs[p].pc.Done? && s.procs[p].call.account == "" ==>
                  var id, own := s.procs[p].pc.answer, s.procs[p].call.distinct;
                  EverHad(INIT, events, id, own) || EverMissed(INIT, events, id, own))
            && (pod in s.caches && d in s.caches[pod].distincts ==>
                  var id := s.caches[pod].distincts[d];
                  EverHad(INIT, events, id, d) || EverMissed(INIT, events, id, d))
  {
    var s, h := Run(INIT, events), RunHistory(INIT, NO_HISTORY, events);
    NothingKnown();
    RunKeepsKnown(INIT, NO_HISTORY, events);
    hide IsRun, Run, RunHistory, EverHeld, EverHad, EverMissed, Inv;
    if p in s.procs && s.procs[p].pc.Done? {
      assert PcKnown(h, s.procs[p].call, s.procs[p].pc);
      HistoryMeans(INIT, NO_HISTORY, events, s.procs[p].pc.answer, s.procs[p].call.distinct);
      MissedMeans(INIT, NO_HISTORY, events, s.procs[p].pc.answer, s.procs[p].call.distinct);
    }
    if pod in s.caches && d in s.caches[pod].distincts {
      assert CacheKnown(h, s.caches[pod]);
      HistoryMeans(INIT, NO_HISTORY, events, s.caches[pod].distincts[d], d);
      MissedMeans(INIT, NO_HISTORY, events, s.caches[pod].distincts[d], d);
    }
  }

  /** In runs whose orphan deletes meet their guard nothing is ever missed. */
  lemma {:induction false} SafeRunsMissNothing(s: State, events: seq<Event>, id: int, d: string)
    requires SafeInv(s) && IsRun(s, events) && IsSafeRun(s, events)
    ensures !EverMissed(s, events, id, d)
    decreases |events|
  {
    hide Next, SafeInv, MissedBy, SafeDelete;
    if events != [] {
      NextKeepsSafe(s, events[0]);
      if !events[0].Begin? {
        TargetIsThere(s, events[0].p);
      }
      SafeRunsMissNothing(Next(s, events[0]), events[1..], id, d);
    }
  }

  lemma TargetIsThere(s: State, p: int)
    requires SafeInv(s) && p in s.procs
    ensures MissedBy(s, s.procs[p]) == {}
  {
    assert AccountInv(s.docs, s.procs[p]) && ProcInv(s, s.procs[p]);
    hide UniqueAccounts;
  }

  /** So there every such entry and answer names a mapping that had the distinct id. */
  lemma SafeDistinctsAreHad(events: seq<Event>, p: int, pod: int, d: string)
    requires IsRun(INIT, events) && IsSafeRun(INIT, events)
    ensures var s := Run(INIT, events);
            && (p in s.procs && s.procs[p].pc.Done? && s.procs[p].call.account == "" ==>
                  EverHad(INIT, events, s.procs[p].pc.answer, s.procs[p].call.distinct))
            && (pod in s.caches && d in s.caches[pod].distincts ==>
                  EverHad(INIT, events, s.caches[pod].distincts[d], d))
  {
    hide IsRun, IsSafeRun, Run, EverHad, EverMissed;
    var s := Run(INIT, events);
    DistinctsNameTheirMappings(events, p, pod, d);
    StartIsSafe();
    if p in s.procs && s.procs[p].pc.Done? {
      SafeRunsMissNothing(INIT, events, s.procs[p].pc.answer, s.procs[p].call.distinct);
    }
    if pod in s.caches && d in s.caches[pod].distincts {
      SafeRunsMissNothing(INIT, events, s.caches[pod].distincts[d], d);
    }
  }

  lemma StartIsSafe()
    ensures SafeInv(INIT)
  {
  }
}
