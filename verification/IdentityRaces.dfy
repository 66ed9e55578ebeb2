/** A distinct id can come to lie in two mappings, and so belong to two accounts (internal/dao/store/identity.go:20
    says it cannot): by two binds or by two inserts that each found it unbound
    (internal/dao/store/identity_lookup.go:58-70, identity_atomic.go:132-180).  Here is exactly when a step does
    that, and a run by each route.
 */
module IdentityRaces {
  import opened Wrappers
  import opened IdentityDb
  import opened IdentitySteps
  import opened IdentityOrphans

  // --- Every distinct id in at most one mapping -----------------------------------------------

  predicate InTwo(docs: Docs, d: string) {
    exists i, j :: i in docs && j in docs && i != j && d in docs[i].distincts && d in docs[j].distincts
  }

  /** Every distinct id lies in at most one mapping. */
  ghost predicate OneMapping(docs: Docs) {
    forall i, j, d :: i in docs && j in docs && d in docs[i].distincts && d in docs[j].distincts ==> i == j
  }

  /** No other mapping has this distinct id. */
  predicate NoOtherHas(docs: Docs, id: int, d: string) {
    forall j :: j in docs && j != id ==> d !in docs[j].distincts
  }

  /** The access of this event takes effect. */
  predicate TakesEffect(s: State, e: Event) {
    e.p in s.procs && (e.Move? || (e.Fault? && e.applied))
  }

  /** The guard that is missing: at the moment of the write, a mapping inserted with a distinct id is the first to
      have it, and a bind adds it to a mapping only if no other has it. */
  predicate KeepsDistinct(s: State, e: Event) {
    TakesEffect(s, e) ==>
      var Proc(call, pc) := s.procs[e.p];
      match pc
      case Insert(kind, id) =>
        var m := NewMapping(call, kind);
        InsertConflicts(s.docs, id, m) || forall d :: d in m.distincts ==> !DistinctTaken(s.docs, d)
      case AdoptBind(existing) => existing.id in s.docs ==> NoOtherHas(s.docs, existing.id, call.distinct)
      case BindDistinctTo(am) => am.id in s.docs ==> NoOtherHas(s.docs, am.id, call.distinct)
      case _ => true
  }

  lemma BindSplitsIff(docs: Docs, id: int, d: string)
    requires OneMapping(docs) && id in docs
    ensures OneMapping(BindDistinct(docs, id, d)) <==> NoOtherHas(docs, id, d)
  {
    var docs' := BindDistinct(docs, id, d);
    assert d in docs'[id].distincts && forall j :: j in docs && j != id ==> docs'[j] == docs[j];
    if !NoOtherHas(docs, id, d) {
      var j :| j in docs && j != id && d in docs[j].distincts;
      assert d in docs'[j].distincts;
    }
  }

  lemma InsertSplitsIff(docs: Docs, id: int, m: Mapping)
    requires OneMapping(docs) && id !in docs
    ensures OneMapping(docs[id := m]) <==> forall d :: d in m.distincts ==> !DistinctTaken(docs, d)
  {
    var docs' := docs[id := m];
    if d :| d in m.distincts && DistinctTaken(docs, d) {
      var j :| j in docs && d in docs[j].distincts;
      assert j in docs' && d in docs'[j].distincts && d in docs'[id].distincts;
    }
  }

  /** From any state with every distinct id in at most one mapping, a step of any call, database faults included,
      keeps that if and only if the guard holds. */
  lemma StepKeepsDistinctIff(s: State, e: Event)
    requires Enabled(s, e) && OneMapping(s.docs)
    ensures OneMapping(Next(s, e).docs) <==> KeepsDistinct(s, e)
  {
    hide NextPc, Readable;
    if TakesEffect(s, e) {
      var Proc(call, pc) := s.procs[e.p];
      assert Next(s, e).docs == NextDocs(s, call, pc);
      hide OneMapping, NoOtherHas;
      match pc {
        case Insert(kind, id) =>
          if !InsertConflicts(s.docs, id, NewMapping(call, kind)) {
            InsertSplitsIff(s.docs, id, NewMapping(call, kind));
          }
        case AdoptBind(existing) => BindsOrNot(s.docs, existing.id, call.distinct);
        case BindDistinctTo(am) => BindsOrNot(s.docs, am.id, call.distinct);
        case BindAccountTo(dm) => SameDistinctsKeep(s.docs, NextDocs(s, call, pc));
        case DeleteOrphan(_, _) => SameDistinctsKeep(s.docs, NextDocs(s, call, pc));
        case _ =>
      }
    } else {
      assert Next(s, e).docs == s.docs;
    }
  }

  lemma BindsOrNot(docs: Docs, id: int, d: string)
    requires OneMapping(docs)
    ensures OneMapping(BindDistinct(docs, id, d)) <==> (id in docs ==> NoOtherHas(docs, id, d))
  {
    hide OneMapping, NoOtherHas;
    if id in docs {
      BindSplitsIff(docs, id, d);
    }
  }

  lemma SameDistinctsKeep(docs: Docs, docs': Docs)
    requires OneMapping(docs) && docs'.Keys <= docs.Keys
    requires forall i :: i in docs' ==> docs'[i].distincts == docs[i].distincts
    ensures OneMapping(docs')
  {
  }

  // --- Every distinct id with at most one account --------------------------------------------------

  /** The promise itself: no two mappings with an account share a distinct id. */
  ghost predicate OneAccount(docs: Docs) {
    forall i, j, d ::
      (i in docs && j in docs && docs[i].account != "" && docs[j].account != ""
       && d in docs[i].distincts && d in docs[j].distincts) ==> i == j
  }

  /** No other mapping with an account has this distinct id. */
  predicate NoOtherAccountHas(docs: Docs, id: int, d: string) {
    forall j :: j in docs && j != id && docs[j].account != "" ==> d !in docs[j].distincts
  }

  /** The guard for that: it also concerns the bind of an account to a visitor's mapping, and not a visitor's
      insert, which carries no account. */
  predicate KeepsAccount(s: State, e: Event) {
    TakesEffect(s, e) ==>
      var Proc(call, pc) := s.procs[e.p];
      match pc
      case Insert(kind, id) =>
        var m := NewMapping(call, kind);
        InsertConflicts(s.docs, id, m) || m.account == ""
        || forall d :: d in m.distincts ==> NoOtherAccountHas(s.docs, id, d)
      case AdoptBind(existing) =>
        existing.id in s.docs && s.docs[existing.id].account != "" ==>
          NoOtherAccountHas(s.docs, existing.id, call.distinct)
      case BindDistinctTo(am) =>
        am.id in s.docs && s.docs[am.id].account != "" ==> NoOtherAccountHas(s.docs, am.id, call.distinct)
      case BindAccountTo(dm) =>
        BindAccountOutcome(s.docs, dm.id, call.account).Bound? ==>
          forall d :: d in s.docs[dm.id].distincts ==> NoOtherAccountHas(s.docs, dm.id, d)
      case _ => true
  }

  /** Changing one mapping keeps the promise exactly when, if it then has an account, no other mapping with an
      account has any of its distinct ids. */
  lemma ChangeKeepsAccountIff(docs: Docs, id: int, m: Mapping)
    requires OneAccount(docs)
    ensures OneAccount(docs[id := m]) <==>
            (m.account != "" ==> forall d :: d in m.distincts ==> NoOtherAccountHas(docs, id, d))
  {
    var docs' := docs[id := m];
    assert docs'[id] == m && forall j :: j in docs && j != id ==> docs'[j] == docs[j];
    if m.account != "" {
      if d :| d in m.distincts && !NoOtherAccountHas(docs, id, d) {
        var j :| j in docs && j != id && docs[j].account != "" && d in docs[j].distincts;
        assert docs'[j].account != "" && d in docs'[j].distincts;
      }
    }
  }

  lemma BindKeepsAccountIff(docs: Docs, id: int, d: string)
    requires OneAccount(docs)
    ensures OneAccount(BindDistinct(docs, id, d)) <==>
            (id in docs && docs[id].account != "" ==> NoOtherAccountHas(docs, id, d))
  {
    if id in docs && d !in docs[id].distincts {
      var m := docs[id].(distincts := docs[id].distincts + [d]);
      ChangeKeepsAccountIff(docs, id, m);
      if docs[id].account != "" {
        forall c | c in docs[id].distincts ensures NoOtherAccountHas(docs, id, c) {
        }
        assert forall c :: c in m.distincts <==> c in docs[id].distincts || c == d;
      }
    }
  }

  /** From any state that keeps the promise, a step keeps it if and only if the guard holds. */
  lemma StepKeepsAccountIff(s: State, e: Event)
    requires Enabled(s, e) && OneAccount(s.docs)
    ensures OneAccount(Next(s, e).docs) <==> KeepsAccount(s, e)
  {
    hide NextPc, Readable;
    if TakesEffect(s, e) {
      var Proc(call, pc) := s.procs[e.p];
      assert Next(s, e).docs == NextDocs(s, call, pc);
      match pc {
        case Insert(kind, id) =>
          hide OneAccount, NoOtherAccountHas;
          ChangeKeepsAccountIff(s.docs, id, NewMapping(call, kind));
        case AdoptBind(existing) =>
          hide OneAccount, NoOtherAccountHas;
          BindKeepsAccountIff(s.docs, existing.id, call.distinct);
        case BindDistinctTo(am) =>
          hide OneAccount, NoOtherAccountHas;
          BindKeepsAccountIff(s.docs, am.id, call.distinct);
        case BindAccountTo(dm) =>
          hide OneAccount, NoOtherAccountHas;
          if BindAccountOutcome(s.docs, dm.id, call.account).Bound? {
            ChangeKeepsAccountIff(s.docs, dm.id, s.docs[dm.id].(account := call.account));
          }
        case DeleteOrphan(_, _) =>
        case _ =>
      }
    } else {
      assert Next(s, e).docs == s.docs;
    }
  }

  // --- Whole runs ---------------------------------------------------------------------------------------

  /** It holds of every state of the run. */
  ghost predicate Always(inv: State -> bool, s: State, events: seq<Event>)
    requires IsRun(s, events)
    decreases |events|
  {
    inv(s) && (events != [] ==> Always(inv, Next(s, events[0]), events[1..]))
  }

  /** Every event of the run meets the guard. */
  ghost predicate AllMeet(guard: (State, Event) -> bool, s: State, events: seq<Event>)
    requires IsRun(s, events)
    decreases |events|
  {
    events != [] ==> guard(s, events[0]) && AllMeet(guard, Next(s, events[0]), events[1..])
  }

  /** The guard is what a step needs to keep the invariant. */
  ghost predicate Decides(inv: State -> bool, guard: (State, Event) -> bool) {
    forall s, e :: Enabled(s, e) && inv(s) ==> (inv(Next(s, e)) <==> guard(s, e))
  }

  lemma {:induction false} RunKeepsIff(inv: State -> bool, guard: (State, Event) -> bool, s: State, events: seq<Event>)
    requires Decides(inv, guard) && IsRun(s, events) && inv(s)
    ensures Always(inv, s, events) <==> AllMeet(guard, s, events)
    decreases |events|
  {
    hide Next, Enabled;
    if events != [] {
      var t := Next(s, events[0]);
      assert inv(t) <==> guard(s, events[0]);
      if inv(t) {
        hide Decides;
        RunKeepsIff(inv, guard, t, events[1..]);
      }
    }
  }

  ghost predicate SingleMappings(s: State) {
    OneMapping(s.docs)
  }

  ghost predicate SingleAccounts(s: State) {
    OneAccount(s.docs)
  }

  /** From empty: every distinct id lies in at most one mapping at every moment of a run exactly when every event
      of the run meets the guard. */
  lemma MappingsStaySingleIff(events: seq<Event>)
    requires IsRun(INIT, events)
    ensures Always(SingleMappings, INIT, events) <==> AllMeet(KeepsDistinct, INIT, events)
  {
    hide Always, AllMeet, IsRun, KeepsDistinct, Enabled, Next, OneMapping;
    assert Decides(SingleMappings, KeepsDistinct) by {
      forall s, e | Enabled(s, e) && SingleMappings(s)
        ensures SingleMappings(Next(s, e)) <==> KeepsDistinct(s, e)
      {
        StepKeepsDistinctIff(s, e);
      }
    }
    assert SingleMappings(INIT) by { EmptyIsSingle(); }
    RunKeepsIff(SingleMappings, KeepsDistinct, INIT, events);
  }

  /** And one distinct id belongs to at most one account at every moment exactly when every event meets the
      account guard. */
  lemma AccountsStaySingleIff(events: seq<Event>)
    requires IsRun(INIT, events)
    ensures Always(SingleAccounts, INIT, events) <==> AllMeet(KeepsAccount, INIT, events)
  {
    hide Always, AllMeet, IsRun, KeepsAccount, Enabled, Next, OneAccount;
    assert Decides(SingleAccounts, KeepsAccount) by {
      forall s, e | Enabled(s, e) && SingleAccounts(s)
        ensures SingleAccounts(Next(s, e)) <==> KeepsAccount(s, e)
      {
        StepKeepsAccountIff(s, e);
      }
    }
    assert SingleAccounts(INIT) by { EmptyIsSingle(); }
    RunKeepsIff(SingleAccounts, KeepsAccount, INIT, events);
  }

  lemma EmptyIsSingle()
    ensures OneMapping(INIT.docs) && OneAccount(INIT.docs)
  {
  }

  // --- Runs that break the guards --------------------------------------------------------------------

  // A login that misses the caches of a fresh pod.
  lemma MissesCaches(t: State, p: int, call: Call) returns (es: seq<Event>, s: State)
    requires p !in t.procs && call.pod !in t.caches && call.account != "" && call.distinct != ""
    ensures IsRun(t, es) && Run(t, es) == s
    ensures s.docs == t.docs && s.caches == t.caches && s.counter == t.counter
    ensures s.procs == t.procs[p := Proc(call, FindAccount)]
  {
    hide IsRun, Run;
    s, es := t, [];
    EmptyRun(t);
    es, s := Go(t, es, s, Begin(p, call));
    es, s := Go(t, es, s, Move(p, None));
    assert s.procs[p] == Proc(call, TryDistinct(None)) && s.docs == t.docs;
    es, s := Go(t, es, s, Move(p, None));
  }

  // It finds its account's mapping, finds the distinct id in none, and is about to add it.
  lemma AboutToBind(t: State, p: int, call: Call, id: int) returns (es: seq<Event>, s: State)
    requires p !in t.procs && call.pod !in t.caches && call.account != "" && call.distinct != ""
    requires id in t.docs && t.docs[id] == Mapping(call.account, []) && !DistinctTaken(t.docs, call.distinct)
    ensures IsRun(t, es) && Run(t, es) == s
    ensures s.docs == t.docs && s.caches == t.caches
    ensures s.procs == t.procs[p := Proc(call, BindDistinctTo(Loaded(id, t.docs[id])))]
  {
    hide IsRun, Run;
    es, s := MissesCaches(t, p, call);
    es, s := Go(t, es, s, Move(p, Some(id)));
    assert s.procs[p] == Proc(call, FindDistinct(Some(Loaded(id, t.docs[id])))) && s.docs == t.docs;
    es, s := Go(t, es, s, Move(p, None));
  }

  // Two accounts, each with a mapping of its own.
  lemma TwoAccounts() returns (es: seq<Event>, s: State)
    ensures IsRun(INIT, es) && Run(INIT, es) == s
    ensures s.docs == map[1 := Mapping("a", []), 2 := Mapping("b", [])]
    ensures s.procs.Keys == {0, 1} && s.caches.Keys == {0, 1}
  {
    hide IsRun, Run, Inv;
    InitIsInv();
    var e1 := FreshAccount(INIT, 0, Call(0, "a", ""));
    var t := Run(INIT, e1);
    RunKeepsInv(INIT, e1);
    var e2 := FreshAccount(t, 1, Call(1, "b", ""));
    RunSplit(INIT, e1, e2);
    es, s := e1 + e2, Run(t, e2);
  }

  lemma InitIsInv()
    ensures Inv(INIT)
  {
  }

  // --- By two binds ---------------------------------------------------------------------------------

  /** Two logins with one distinct id, on different pods, leave it in both accounts' mappings. */
  lemma DistinctIdSplits() returns (events: seq<Event>)
    ensures IsRun(INIT, events)
    ensures var docs := Run(INIT, events).docs; InTwo(docs, "d") && !OneAccount(docs)
  {
    hide IsRun, Run, InTwo, OneAccount;
    var e1, s1 := TwoAccounts();
    var e2, s2 := AboutToBind(s1, 2, Call(2, "a", "d"), 1);
    var e3, s3 := AboutToBind(s2, 3, Call(3, "b", "d"), 2);
    RunSplit(INIT, e1, e2);
    RunSplit(INIT, e1 + e2, e3);
    assert s3.procs[2] == Proc(Call(2, "a", "d"), BindDistinctTo(Loaded(1, Mapping("a", []))));
    assert s3.docs == map[1 := Mapping("a", []), 2 := Mapping("b", [])];
    var es, s := Go(INIT, (e1 + e2) + e3, s3, Move(2, None));
    assert s.docs == BindDistinct(s3.docs, 1, "d") && s.procs[3] == s3.procs[3];
    assert 1 in s.docs && s.docs[1] == Mapping("a", ["d"]) && s.docs[2] == Mapping("b", []);
    es, s := Go(INIT, es, s, Move(3, None));
    BothHold(s.docs, "a", "b");
    events := es;
  }

  lemma BothHold(docs: Docs, a: string, b: string)
    requires 1 in docs && docs[1] == Mapping(a, ["d"]) && 2 in docs && docs[2] == Mapping(b, ["d"])
    requires a != "" && b != ""
    ensures InTwo(docs, "d") && !OneAccount(docs)
  {
    assert "d" in docs[1].distincts && "d" in docs[2].distincts;
  }

  // --- By two inserts -------------------------------------------------------------------------------

  // A login that finds neither of its ids and is about to insert a mapping with both.
  lemma AboutToInsert(t: State, p: int, call: Call) returns (es: seq<Event>, s: State)
    requires p !in t.procs && call.pod !in t.caches && call.account != "" && call.distinct != ""
    requires !AccountTaken(t.docs, call.account) && !DistinctTaken(t.docs, call.distinct)
    ensures IsRun(t, es) && Run(t, es) == s
    ensures s.docs == t.docs && s.caches == t.caches && s.counter == t.counter + 1
    ensures s.procs == t.procs[p := Proc(call, Insert(ForBoth, t.counter + 1))]
  {
    hide IsRun, Run;
    es, s := MissesCaches(t, p, call);
    es, s := Go(t, es, s, Move(p, None));
    assert s.procs[p] == Proc(call, FindDistinct(None)) && s.docs == t.docs && s.counter == t.counter;
    es, s := Go(t, es, s, Move(p, None));
    assert s.procs[p] == Proc(call, Alloc(ForBoth)) && s.docs == t.docs && s.counter == t.counter;
    es, s := Go(t, es, s, Move(p, None));
  }

  /** Two first logins with one distinct id, on different pods, each insert a mapping that has it: no bind is
      involved. */
  lemma InsertsSplit() returns (events: seq<Event>)
    ensures IsRun(INIT, events)
    ensures var docs := Run(INIT, events).docs;
            docs == map[1 := Mapping("a", ["d"]), 2 := Mapping("b", ["d"])] && InTwo(docs, "d") && !OneAccount(docs)
  {
    hide IsRun, Run, InTwo, OneAccount;
    var e1, s1 := AboutToInsert(INIT, 0, Call(0, "a", "d"));
    var e2, s2 := AboutToInsert(s1, 1, Call(1, "b", "d"));
    RunSplit(INIT, e1, e2);
    assert s2.procs[0] == Proc(Call(0, "a", "d"), Insert(ForBoth, 1));
    var es, s := Go(INIT, e1 + e2, s2, Move(0, None));
    assert s.docs == map[1 := Mapping("a", ["d"])] && s.procs[1] == Proc(Call(1, "b", "d"), Insert(ForBoth, 2));
    es, s := Go(INIT, es, s, Move(1, None));
    assert s.docs == map[1 := Mapping("a", ["d"]), 2 := Mapping("b", ["d"])];
    BothHold(s.docs, "a", "b");
    events := es;
  }
}
