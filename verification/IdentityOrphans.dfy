/** What goes wrong when the orphan delete removes a mapping that another pod has just
    bound to an account (internal/dao/store/identity_atomic.go:112-124): the guard that
    OneAccountOneUser asks for is needed. */
module IdentityOrphans {
  import opened Wrappers
  import opened IdentityDb
  import opened IdentitySteps

  lemma {:induction false} RunStep(s0: State, events: seq<Event>, e: Event)
    requires IsRun(s0, events) && Enabled(Run(s0, events), e)
    ensures IsRun(s0, events + [e]) && Run(s0, events + [e]) == Next(Run(s0, events), e)
    decreases |events|
  {
    if events == [] {
      assert ([e])[1..] == [];
    } else {
      assert (events + [e])[1..] == events[1..] + [e];
      RunStep(Next(s0, events[0]), events[1..], e);
    }
  }

  // One more step of a run under construction.
  lemma Go(s0: State, es: seq<Event>, s: State, e: Event) returns (es': seq<Event>, s': State)
    requires IsRun(s0, es) && Run(s0, es) == s && Enabled(s, e)
    ensures IsRun(s0, es') && Run(s0, es') == s' && s' == Next(s, e)
  {
    RunStep(s0, es, e);
    es', s' := es + [e], Next(s, e);
  }

  /** Whenever the orphan delete removes a mapping bound to an account, a later call for that
      account on a fresh pod is answered with a different id than the removed one. */
  lemma UnsafeDeleteForgets(s: State, e: Event, p: int, pod: int) returns (es: seq<Event>)
    requires Inv(s) && Enabled(s, e) && !SafeDelete(s, e)
    requires p !in s.procs && pod !in s.caches
    ensures IsRun(s, [e] + es)
    ensures var id, s' := s.procs[e.p].pc.id, Run(s, [e] + es);
            && p in s'.procs && s'.procs[p].call == Call(pod, s.docs[id].account, "")
            && s'.procs[p].pc.Done? && s'.procs[p].pc.answer != id
  {
    var id := s.procs[e.p].pc.id;
    var a := s.docs[id].account;
    var call := Call(pod, a, "");
    var t := Next(s, e);
    NextKeepsInv(s, e);
    assert t.docs == s.docs - {id} && !AccountTaken(t.docs, a);
    assert id <= t.counter;
    es := FreshAccount(t, p, call);
    assert ([e] + es)[1..] == es;
  }

  /** So every unsafe delete of a mapping some call was already answered with leads to two different answers for
      one account. */
  lemma UnsafeDeleteTwoAnswers(s: State, e: Event, q: int, p: int, pod: int) returns (es: seq<Event>)
    requires Inv(s) && Enabled(s, e) && !SafeDelete(s, e)
    requires q in s.procs && s.procs[q].pc == Done(s.procs[e.p].pc.id)
    requires s.procs[q].call.account == s.docs[s.procs[e.p].pc.id].account
    requires p !in s.procs && pod !in s.caches
    ensures IsRun(s, [e] + es)
    ensures var s' := Run(s, [e] + es);
            && q in s'.procs && p in s'.procs && s'.procs[q].pc.Done? && s'.procs[p].pc.Done?
            && s'.procs[q].call.account == s'.procs[p].call.account
            && s'.procs[q].pc.answer != s'.procs[p].pc.answer
  {
    es := UnsafeDeleteForgets(s, e, p, pod);
    hide IsRun, Run, Inv;
    DoneStays(s, [e] + es, q);
  }

  // A call for an account nobody holds, run alone, looks it up and is given the next id.
  lemma FreshLookup(t: State, p: int, call: Call) returns (es: seq<Event>, s: State)
    requires Inv(t) && p !in t.procs && call.pod !in t.caches
    requires call.account != "" && call.distinct == "" && !AccountTaken(t.docs, call.account)
    ensures IsRun(t, es) && Run(t, es) == s
    ensures s.procs == t.procs[p := Proc(call, Insert(ForAccount, t.counter + 1))] && s.docs == t.docs
    ensures s.counter == t.counter + 1 && s.caches == t.caches
  {
    hide IsRun, Run, Inv;
    s, es := t, [];
    EmptyRun(t);
    es, s := Go(t, es, s, Begin(p, call));
    es, s := Go(t, es, s, Move(p, None));
    assert s.procs[p] == Proc(call, FindAccount) && s.docs == t.docs && s.counter == t.counter;
    es, s := Go(t, es, s, Move(p, None));
    assert s.procs[p] == Proc(call, Alloc(ForAccount)) && s.docs == t.docs && s.counter == t.counter;
    es, s := Go(t, es, s, Move(p, None));
  }

  // Then it creates a mapping with that id, and answers it.
  lemma FreshAccount(t: State, p: int, call: Call) returns (es: seq<Event>)
    requires Inv(t) && p !in t.procs && call.pod !in t.caches
    requires call.account != "" && call.distinct == "" && !AccountTaken(t.docs, call.account)
    ensures IsRun(t, es)
    ensures var n, s' := t.counter + 1, Run(t, es);
            && s'.procs == t.procs[p := Proc(call, Done(n))] && s'.caches.Keys == t.caches.Keys + {call.pod}
            && s'.docs == t.docs[n := Mapping(call.account, [])] && s'.counter == n
  {
    hide IsRun, Run, Inv;
    var n := t.counter + 1;
    NextIdIsFresh(t);
    var s: State;
    es, s := FreshLookup(t, p, call);
    es, s := Go(t, es, s, Move(p, None));
    assert s.procs[p] == Proc(call, Store([PutAccount(call.account, n)], n));
    es, s := StoreOne(t, es, s, p, call, PutAccount(call.account, n), n);
  }

  // The last cache store and the answer.
  lemma StoreOne(t: State, es: seq<Event>, s: State, p: int, call: Call, op: CacheOp, n: int)
    returns (es': seq<Event>, s': State)
    requires IsRun(t, es) && Run(t, es) == s && p in s.procs && s.procs[p] == Proc(call, Store([op], n))
    ensures IsRun(t, es') && Run(t, es') == s'
    ensures s'.docs == s.docs && s'.counter == s.counter && s'.procs == s.procs[p := Proc(call, Done(n))]
    ensures s'.caches.Keys == s.caches.Keys + {call.pod}
  {
    hide IsRun, Run;
    es', s' := Go(t, es, s, Move(p, None));
    assert [op][1..] == [];
    assert s'.procs[p] == Proc(call, Store([], n));
    es', s' := Go(t, es', s', Move(p, None));
  }

  lemma EmptyRun(t: State)
    ensures IsRun(t, []) && Run(t, []) == t
  {
  }

  lemma NextIdIsFresh(t: State)
    requires Inv(t)
    ensures t.counter + 1 !in t.docs
  {
  }

  // --- A run in which it happens -----------------------------------------------------

  const VISITOR_0 := Call(0, "", "d")
  const VISITOR_1 := Call(1, "", "d")
  const LOGIN := Call(2, "a", "d")

  // Two pods look up the same new distinct id before either has inserted it.
  lemma TwoLookups() returns (es: seq<Event>, s: State)
    ensures IsRun(INIT, es) && Run(INIT, es) == s
    ensures s.docs == map[] && s.counter == 0 && s.caches == map[]
    ensures s.procs == map[0 := Proc(VISITOR_0, Alloc(ForDistinct)), 1 := Proc(VISITOR_1, Alloc(ForDistinct))]
  {
    hide IsRun, Run;
    es, s := [], INIT;
    EmptyRun(INIT);
    es, s := Go(INIT, es, s, Begin(0, VISITOR_0));
    es, s := Go(INIT, es, s, Begin(1, VISITOR_1));
    es, s := Go(INIT, es, s, Move(0, None));
    es, s := Go(INIT, es, s, Move(1, None));
    es, s := Go(INIT, es, s, Move(0, None));
    es, s := Go(INIT, es, s, Move(1, None));
  }

  // Both insert a mapping for it.
  lemma TwoVisitors() returns (es: seq<Event>, s: State)
    ensures IsRun(INIT, es) && Run(INIT, es) == s
    ensures s.docs == map[1 := Mapping("", ["d"]), 2 := Mapping("", ["d"])]
    ensures s.counter == 2 && s.caches == map[]
    ensures s.procs == map[0 := Proc(VISITOR_0, Verify(1)), 1 := Proc(VISITOR_1, Verify(2))]
  {
    hide IsRun, Run;
    es, s := TwoLookups();
    es, s := Go(INIT, es, s, Move(0, None));
    es, s := Go(INIT, es, s, Move(1, None));
    assert s.procs == map[0 := Proc(VISITOR_0, Insert(ForDistinct, 1)), 1 := Proc(VISITOR_1, Insert(ForDistinct, 2))];
    es, s := Go(INIT, es, s, Move(0, None));
    es, s := Go(INIT, es, s, Move(1, None));
  }

  // The first visitor wins; the second is about to delete its own mapping as an orphan.
  lemma OrphanChosen() returns (es: seq<Event>, s: State)
    ensures IsRun(INIT, es) && Run(INIT, es) == s
    ensures s.docs == map[1 := Mapping("", ["d"]), 2 := Mapping("", ["d"])] && s.caches == map[]
    ensures s.procs.Keys == {0, 1} && s.procs[1].pc.DeleteOrphan? && s.procs[1].pc.id == 2
  {
    hide IsRun, Run;
    es, s := TwoVisitors();
    es, s := Go(INIT, es, s, Move(1, Some(1)));
  }

  // A third pod finds that mapping, unbound, for a login of account "a".
  lemma LoginFinds() returns (es: seq<Event>, s: State)
    ensures IsRun(INIT, es) && Run(INIT, es) == s
    ensures s.docs == map[1 := Mapping("", ["d"]), 2 := Mapping("", ["d"])]
    ensures s.procs.Keys == {0, 1, 2} && s.caches == map[]
    ensures s.procs[1].pc.DeleteOrphan? && s.procs[1].pc.id == 2
    ensures s.procs[2] == Proc(LOGIN, BindAccountTo(Loaded(2, Mapping("", ["d"]))))
  {
    hide IsRun, Run;
    es, s := OrphanChosen();
    es, s := Go(INIT, es, s, Begin(2, LOGIN));
    es, s := Go(INIT, es, s, Move(2, None));
    assert s.procs[2] == Proc(LOGIN, TryDistinct(None));
    es, s := Go(INIT, es, s, Move(2, None));
    assert s.procs[2] == Proc(LOGIN, FindAccount);
    es, s := Go(INIT, es, s, Move(2, None));
    assert s.procs[2] == Proc(LOGIN, FindDistinct(None));
    es, s := Go(INIT, es, s, Move(2, Some(2)));
  }

  // It binds the account to that mapping, which is about to be deleted.
  lemma LoginBinds() returns (es: seq<Event>, s: State)
    ensures IsRun(INIT, es) && Run(INIT, es) == s
    ensures 2 in s.docs && s.docs[2].account == "a"
    ensures 1 in s.procs && s.procs[1].pc.DeleteOrphan? && s.procs[1].pc.id == 2
    ensures 2 in s.procs && s.procs[2] == Proc(LOGIN, Done(2))
    ensures s.procs.Keys == {0, 1, 2} && 3 !in s.caches
  {
    hide IsRun, Run;
    es, s := LoginFinds();
    es, s := Go(INIT, es, s, Move(2, None));
    assert s.procs[2] == Proc(LOGIN, Store([PutAccount("a", 2)], 2));
    es, s := StoreOne(INIT, es, s, 2, LOGIN, PutAccount("a", 2), 2);
  }

  /** Without the guard one account can be answered with two user ids. */
  lemma OrphanDeleteRace() returns (events: seq<Event>, p: int, q: int)
    ensures IsRun(INIT, events)
    ensures var s := Run(INIT, events);
            && p in s.procs && q in s.procs && s.procs[p].call.account == s.procs[q].call.account == "a"
            && s.procs[p].pc.Done? && s.procs[q].pc.Done?
            && s.procs[p].pc.answer != s.procs[q].pc.answer
  {
    var es, s := LoginBinds();
    RunKeepsInv(INIT, es);
    var tail := UnsafeDeleteForgets(s, Move(1, None), 3, 3);
    RunSplit(INIT, es, [Move(1, None)] + tail);
    DoneStays(s, [Move(1, None)] + tail, 2);
    events, p, q := es + ([Move(1, None)] + tail), 2, 3;
  }

  /** An answer, once given, stands. */
  lemma {:induction false} DoneStays(s: State, events: seq<Event>, p: int)
    requires IsRun(s, events)
    requires p in s.procs && s.procs[p].pc.Done?
    ensures p in Run(s, events).procs && Run(s, events).procs[p] == s.procs[p]
    decreases |events|
  {
    if events != [] {
      DoneStays(Next(s, events[0]), events[1..], p);
    }
  }
}
