/** Identity resolution with every database call and every cache access as its own step
    (internal/dao/store/identity_lookup.go, identity_atomic.go, identity_cache.go).

    Any number of pods run any number of calls; an event picks the call that moves.  A
    database call may also fail, with or without having taken effect.
 */
module IdentitySteps {
  import opened Wrappers
  import opened IdentityDb

  datatype Call = Call(pod: int, account: string, distinct: string)

  datatype CacheOp = PutAccount(account: string, id: int) | PutDistinct(distinct: string, id: int)

  datatype Cache = Cache(accounts: map<string, int>, distincts: map<string, int>)

  // A mapping as some earlier read returned it.
  datatype Loaded = Loaded(id: int, m: Mapping)

  datatype Kind = ForAccount | ForDistinct | ForBoth

  /** Where a call stands: the access it makes next, with the locals it still needs. */
  datatype Pc =
    | TryAccount
    | TryDistinct(hit: Option<int>)
    | FindAccount
    | FindDistinct(loaded: Option<Loaded>)
    | Alloc(kind: Kind)
    | Insert(kind: Kind, id: int)
    | AdoptAccount(kind: Kind)
    | AdoptBind(existing: Loaded)
    | Verify(id: int)
    | DeleteOrphan(id: int, existing: Loaded)
    | BindDistinctTo(am: Loaded)
    | BindAccountTo(dm: Loaded)
    | Store(ops: seq<CacheOp>, answer: int)
    | Done(answer: int)
    | Failed

  datatype Proc = Proc(call: Call, pc: Pc)

  /** `ever` and `born` record history only: the ids ever inserted, and those inserted with an account. */
  datatype State = State(docs: Docs, counter: int, caches: map<int, Cache>, procs: map<int, Proc>,
                         ever: set<int>, born: set<int>)

  datatype Event =
    | Begin(p: int, call: Call)
    | Move(p: int, found: Option<int>)
    | Fault(p: int, found: Option<int>, applied: bool)

  // --- One call's own step -------------------------------------------------------

  function CacheOf(caches: map<int, Cache>, pod: int): Cache {
    if pod in caches then caches[pod] else Cache(map[], map[])
  }

  function Lookup(m: map<string, int>, key: string): Option<int> {
    if key in m then Some(m[key]) else None
  }

  function Load(docs: Docs, found: Option<int>): Option<Loaded>
    requires found.Some? ==> found.value in docs
  {
    match found
    case None => None
    case Some(id) => Some(Loaded(id, docs[id]))
  }

  /** The stores that caching a loaded mapping makes, in order. */
  function CacheMapping(l: Loaded): seq<CacheOp> {
    (if l.m.account != "" then [PutAccount(l.m.account, l.id)] else []) +
    seq(|l.m.distincts|, i requires 0 <= i < |l.m.distincts| => PutDistinct(l.m.distincts[i], l.id))
  }

  function Start(call: Call): Pc {
    if call.account != "" then TryAccount else TryDistinct(None)
  }

  /** Which results a read may return in this state; other steps take no result. */
  predicate Readable(docs: Docs, call: Call, pc: Pc, found: Option<int>) {
    match pc
    case FindAccount => FindsAccount(docs, call.account, found)
    case AdoptAccount(_) => FindsAccount(docs, call.account, found)
    case FindDistinct(_) => FindsDistinct(docs, call.distinct, found)
    case Verify(_) => FindsDistinct(docs, call.distinct, found)
    case Done(_) => false
    case Failed => false
    case _ => true
  }

  function Resolved(l: Loaded): Pc {
    Store(CacheMapping(l), l.id)
  }

  /** The case analysis once both lookups are in. */
  function WithBoth(am: Option<Loaded>, dm: Option<Loaded>): Pc {
    match (am, dm)
    case (None, None) => Alloc(ForBoth)
    case (Some(a), None) => BindDistinctTo(a)
    case (None, Some(d)) => if d.m.account == "" then BindAccountTo(d) else Alloc(ForAccount)
    case (Some(a), Some(d)) => Store(CacheMapping(a) + CacheMapping(d), a.id)
  }

  function NewMapping(call: Call, kind: Kind): Mapping {
    match kind
    case ForAccount => Mapping(call.account, [])
    case ForDistinct => Mapping("", [call.distinct])
    case ForBoth => Mapping(call.account, [call.distinct])
  }

  /** Where the call goes next. */
  function NextPc(s: State, call: Call, pc: Pc, found: Option<int>): Pc
    requires Readable(s.docs, call, pc, found)
  {
    var cache := CacheOf(s.caches, call.pod);
    match pc
    case TryAccount =>
      var hit := Lookup(cache.accounts, call.account);
      if call.distinct != "" then TryDistinct(hit)
      else if hit.Some? then Done(hit.value) else FindAccount
    case TryDistinct(hit) =>
      var dhit := Lookup(cache.distincts, call.distinct);
      if call.account == "" then (if dhit.Some? then Done(dhit.value) else FindDistinct(None))
      else if hit.Some? && dhit.Some? then Done(hit.value) else FindAccount
    case FindAccount =>
      var am := Load(s.docs, found);
      if call.distinct != "" then FindDistinct(am)
      else if am.Some? then Resolved(am.value) else Alloc(ForAccount)
    case FindDistinct(am) =>
      var dm := Load(s.docs, found);
      if call.account != "" then WithBoth(am, dm)
      else if dm.Some? then Resolved(dm.value) else Alloc(ForDistinct)
    case Alloc(kind) => Insert(kind, s.counter + 1)
    case Insert(kind, id) =>
      if InsertConflicts(s.docs, id, NewMapping(call, kind)) then
        (if kind.ForDistinct? then Failed else AdoptAccount(kind))
      else (match kind
            case ForAccount => Store([PutAccount(call.account, id)], id)
            case ForDistinct => Verify(id)
            case ForBoth => Store([PutAccount(call.account, id), PutDistinct(call.distinct, id)], id))
    case AdoptAccount(kind) =>
      (match Load(s.docs, found)
       case None => Failed
       case Some(existing) => if kind.ForBoth? then AdoptBind(existing) else Resolved(existing))
    case AdoptBind(existing) =>
      Store(CacheMapping(existing) + [PutDistinct(call.distinct, existing.id)], existing.id)
    case Verify(id) =>
      if found.Some? && found.value != id then DeleteOrphan(id, Load(s.docs, found).value)
      else Store([PutDistinct(call.distinct, id)], id)
    case DeleteOrphan(id, existing) => Resolved(existing)
    case BindDistinctTo(am) => Store(CacheMapping(am) + [PutDistinct(call.distinct, am.id)], am.id)
    case BindAccountTo(dm) =>
      if BindAccountOutcome(s.docs, dm.id, call.account).Bound?
      then Store([PutAccount(call.account, dm.id)], dm.id)
      else Alloc(ForAccount)
    case Store(ops, answer) => if ops == [] then Done(answer) else Store(ops[1..], answer)
  }

  /** What the call's access does to the collection. */
  function NextDocs(s: State, call: Call, pc: Pc): Docs {
    match pc
    case Insert(kind, id) =>
      var m := NewMapping(call, kind);
      if InsertConflicts(s.docs, id, m) then s.docs else s.docs[id := m]
    case AdoptBind(existing) => BindDistinct(s.docs, existing.id, call.distinct)
    case DeleteOrphan(id, _) => s.docs - {id}
    case BindDistinctTo(am) => BindDistinct(s.docs, am.id, call.distinct)
    case BindAccountTo(dm) => BindAccount(s.docs, dm.id, call.account)
    case _ => s.docs
  }

  function Put(c: Cache, op: CacheOp): Cache {
    match op
    case PutAccount(a, id) => c.(accounts := c.accounts[a := id])
    case PutDistinct(d, id) => c.(distincts := c.distincts[d := id])
  }

  /** The state after the call's access; `pc'` is where it then stands. */
  function Access(s: State, p: int, pc': Pc): State
    requires p in s.procs
  {
    var Proc(call, pc) := s.procs[p];
    var docs' := NextDocs(s, call, pc);
    var inserted := docs'.Keys - s.docs.Keys;
    var caches' := if pc.Store? && pc.ops != []
                   then s.caches[call.pod := Put(CacheOf(s.caches, call.pod), pc.ops[0])]
                   else s.caches;
    State(docs', if pc.Alloc? then s.counter + 1 else s.counter, caches',
          s.procs[p := Proc(call, pc')],
          s.ever + inserted,
          s.born + (set id | id in inserted && docs'[id].account != ""))
  }

  predicate Enabled(s: State, e: Event) {
    match e
    // The parser rejects a record with neither id.
    case Begin(p, call) => p !in s.procs && (call.account != "" || call.distinct != "")
    case Move(p, found) => p in s.procs && Readable(s.docs, s.procs[p].call, s.procs[p].pc, found)
    case Fault(p, found, _) => p in s.procs && Readable(s.docs, s.procs[p].call, s.procs[p].pc, found)
  }

  function Next(s: State, e: Event): State
    requires Enabled(s, e)
  {
    match e
    case Begin(p, call) => s.(procs := s.procs[p := Proc(call, Start(call))])
    case Move(p, found) => Access(s, p, NextPc(s, s.procs[p].call, s.procs[p].pc, found))
    case Fault(p, _, applied) =>
      if applied then Access(s, p, Failed) else s.(procs := s.procs[p := s.procs[p].(pc := Failed)])
  }

  const INIT := State(map[], 0, map[], map[], {}, {})

  ghost predicate IsRun(s: State, events: seq<Event>)
    decreases |events|
  {
    events == [] || (Enabled(s, events[0]) && IsRun(Next(s, events[0]), events[1..]))
  }

  ghost function Run(s: State, events: seq<Event>): State
    requires IsRun(s, events)
    decreases |events|
  {
    if events == [] then s else Run(Next(s, events[0]), events[1..])
  }

  lemma {:induction false} RunSplit(s: State, a: seq<Event>, b: seq<Event>)
    requires IsRun(s, a) && IsRun(Run(s, a), b)
    ensures IsRun(s, a + b) && Run(s, a + b) == Run(Run(s, a), b)
    decreases |a|
  {
    if a == [] {
      assert a + b == b;
    } else {
      assert (a + b)[1..] == a[1..] + b;
      RunSplit(Next(s, a[0]), a[1..], b);
    }
  }

  // --- What every step keeps, orphan deletes included -------------------------------

  /** The id a call has been issued and may still insert or delete. */
  function Owned(pc: Pc): Option<int> {
    match pc
    case Insert(_, id) => Some(id)
    case Verify(id) => Some(id)
    case DeleteOrphan(id, _) => Some(id)
    case _ => None
  }

  ghost predicate ProcInv(s: State, pr: Proc) {
    var call := pr.call;
    match pr.pc
    case Insert(kind, id) => 1 <= id <= s.counter && id !in s.ever && (kind.ForDistinct? <==> call.account == "")
    case Verify(id) => id in s.ever && id !in s.born && call.account == ""
    case DeleteOrphan(id, _) => id in s.ever && id !in s.born && call.account == ""
    case Alloc(kind) => kind.ForDistinct? <==> call.account == ""
    case AdoptAccount(kind) => !kind.ForDistinct? && call.account != ""
    case AdoptBind(_) => call.account != ""
    case BindAccountTo(_) => call.account != ""
    case BindDistinctTo(_) => call.account != ""
    case TryAccount => call.account != ""
    case FindAccount => call.account != ""
    case _ => true
  }

  ghost predicate Inv(s: State) {
    && s.counter >= 0
    && UniqueAccounts(s.docs)
    && s.docs.Keys <= s.ever
    && s.born <= s.docs.Keys
    && (forall id :: id in s.born ==> s.docs[id].account != "")
    && (forall id :: id in s.ever ==> 1 <= id <= s.counter)
    && (forall p :: p in s.procs ==> ProcInv(s, s.procs[p]))
    && (forall p, q :: p in s.procs && q in s.procs && p != q && Owned(s.procs[p].pc).Some? ==>
          Owned(s.procs[p].pc) != Owned(s.procs[q].pc))
  }

  lemma DocsStayUnique(s: State, p: int)
    requires Inv(s) && p in s.procs
    ensures UniqueAccounts(NextDocs(s, s.procs[p].call, s.procs[p].pc))
  {
  }

  /** One access adds at most its own mapping, removes at most its own orphan, and only extends the rest. */
  lemma DocsStep(s: State, p: int)
    requires p in s.procs
    ensures var pr := s.procs[p]; var docs' := NextDocs(s, pr.call, pr.pc);
            && docs'.Keys <= s.docs.Keys + (if pr.pc.Insert? then {pr.pc.id} else {})
            && s.docs.Keys <= docs'.Keys + (if pr.pc.DeleteOrphan? then {pr.pc.id} else {})
            && (forall id :: id in s.docs && id in docs' ==> Extends(s.docs[id], docs'[id]))
            && (forall id :: id in docs' && id !in s.docs ==> docs'[id] == NewMapping(pr.call, pr.pc.kind))
  {
  }

  lemma OthersKeep(s: State, p: int, pc': Pc, q: int)
    requires Inv(s) && p in s.procs && q in s.procs && q != p
    ensures ProcInv(Access(s, p, pc'), s.procs[q])
  {
    DocsStep(s, p);
    assert ProcInv(s, s.procs[q]) && ProcInv(s, s.procs[p]);
    hide NextDocs;
  }

  lemma OwnKeeps(s: State, p: int, found: Option<int>)
    requires Inv(s) && p in s.procs
    requires Readable(s.docs, s.procs[p].call, s.procs[p].pc, found)
    ensures var pr := s.procs[p]; var pc' := NextPc(s, pr.call, pr.pc, found);
            && ProcInv(Access(s, p, pc'), Proc(pr.call, pc'))
            && (Owned(pc').Some? ==> Owned(pc') == Owned(pr.pc) || Owned(pc') == Some(s.counter + 1))
  {
    assert ProcInv(s, s.procs[p]);
  }

  lemma OwnedIsIssued(s: State, p: int)
    requires Inv(s) && p in s.procs
    ensures var o := Owned(s.procs[p].pc); o.Some? ==> o.value <= s.counter
  {
    assert ProcInv(s, s.procs[p]);
  }

  lemma HistoryKeeps(s: State, p: int, pc': Pc)
    requires Inv(s) && p in s.procs
    ensures var s' := Access(s, p, pc');
            && s'.docs.Keys <= s'.ever
            && s'.born <= s'.docs.Keys
            && (forall id :: id in s'.born ==> s'.docs[id].account != "")
            && (forall id :: id in s'.ever ==> 1 <= id <= s'.counter)
  {
    DocsStep(s, p);
    assert ProcInv(s, s.procs[p]);
    hide NextDocs;
  }

  lemma AccessKeepsInv(s: State, p: int, found: Option<int>, pc': Pc)
    requires Inv(s) && p in s.procs
    requires Readable(s.docs, s.procs[p].call, s.procs[p].pc, found)
    requires pc' == NextPc(s, s.procs[p].call, s.procs[p].pc, found) || pc' == Failed
    ensures Inv(Access(s, p, pc'))
  {
    var s' := Access(s, p, pc');
    DocsStayUnique(s, p);
    HistoryKeeps(s, p, pc');
    OwnKeeps(s, p, found);
    forall q | q in s.procs && q != p ensures ProcInv(s', s'.procs[q]) {
      OthersKeep(s, p, pc', q);
    }
    forall q | q in s.procs ensures Owned(s.procs[q].pc).Some? ==> Owned(s.procs[q].pc).value <= s.counter {
      OwnedIsIssued(s, q);
    }
    hide NextDocs, NextPc, ProcInv;
  }

  /** Every step of every call keeps the invariant. */
  lemma NextKeepsInv(s: State, e: Event)
    requires Inv(s) && Enabled(s, e)
    ensures Inv(Next(s, e))
  {
    if e.Begin? || (e.Fault? && !e.applied) {
      var s' := Next(s, e);
      forall q | q in s'.procs ensures ProcInv(s', s'.procs[q]) {
        if q in s.procs { assert ProcInv(s, s.procs[q]); }
      }
    } else {
      var pr := s.procs[e.p];
      AccessKeepsInv(s, e.p, e.found, if e.Move? then NextPc(s, pr.call, pr.pc, e.found) else Failed);
    }
  }

  lemma {:induction false} RunKeepsInv(s: State, events: seq<Event>)
    requires Inv(s) && IsRun(s, events)
    ensures Inv(Run(s, events))
    decreases |events|
  {
    if events != [] {
      NextKeepsInv(s, events[0]);
      RunKeepsInv(Next(s, events[0]), events[1..]);
    }
  }

  /** What a step may do to the collection, whoever makes it and whether or not it fails. */
  lemma NextExtends(s: State, e: Event)
    requires Inv(s) && Enabled(s, e)
    ensures var s' := Next(s, e);
            && s.counter <= s'.counter && s.ever <= s'.ever && s.born <= s'.born
            && (forall id :: id in s.docs && id in s'.docs ==> Extends(s.docs[id], s'.docs[id]))
            && (forall id :: id in s.ever && id !in s.docs ==> id !in s'.docs)
  {
    if e.Move? || (e.Fault? && e.applied) {
      DocsStep(s, e.p);
      assert ProcInv(s, s.procs[e.p]);
      hide NextDocs, NextPc;
    }
  }

  /** Over any run: ids stay within the counter, a mapping inserted with an account is never
      removed, one that was removed never comes back, and one that lives has only grown. */
  lemma {:induction false} RunExtends(s: State, events: seq<Event>)
    requires Inv(s) && IsRun(s, events)
    ensures var s' := Run(s, events);
            && s.counter <= s'.counter && s.ever <= s'.ever
            && (forall id :: id in s'.docs ==> 1 <= id <= s'.counter)
            && (forall id :: id in s.born ==> id in s'.docs)
            && (forall id :: id in s.ever && id !in s.docs ==> id !in s'.docs)
            && (forall id :: id in s.docs && id in s'.docs ==> Extends(s.docs[id], s'.docs[id]))
    decreases |events|
  {
    if events != [] {
      var t := Next(s, events[0]);
      NextKeepsInv(s, events[0]);
      NextExtends(s, events[0]);
      RunExtends(t, events[1..]);
      var s' := Run(t, events[1..]);
      forall id | id in s.docs && id in s'.docs ensures Extends(s.docs[id], s'.docs[id]) {
        assert id in t.ever && id in t.docs;
      }
    }
  }

  /** Two calls never hold the same freshly issued id, and none holds one already inserted by another. */
  lemma IdsAreDistinct(events: seq<Event>, p: int, q: int)
    requires IsRun(INIT, events)
    requires var s := Run(INIT, events); p in s.procs && q in s.procs && p != q
    ensures var s := Run(INIT, events);
            && (s.procs[p].pc.Insert? ==>
                  1 <= s.procs[p].pc.id <= s.counter && s.procs[p].pc.id !in s.ever
                  && (s.procs[q].pc.Insert? ==> s.procs[q].pc.id != s.procs[p].pc.id))
  {
    RunKeepsInv(INIT, events);
    var s := Run(INIT, events);
    assert ProcInv(s, s.procs[p]);
  }

  // --- One account, one user -----------------------------------------------------------

  /** The guard the orphan delete lacks: the mapping it removes still has no account. */
  predicate SafeDelete(s: State, e: Event)
    requires Enabled(s, e)
  {
    (e.Move? || (e.Fault? && e.applied)) && s.procs[e.p].pc.DeleteOrphan? ==>
      var id := s.procs[e.p].pc.id;
      id in s.docs ==> s.docs[id].account == ""
  }

  ghost predicate IsSafeRun(s: State, events: seq<Event>)
    decreases |events|
  {
    events == [] ||
    (Enabled(s, events[0]) && SafeDelete(s, events[0]) && IsSafeRun(Next(s, events[0]), events[1..]))
  }

  ghost predicate OpHolds(docs: Docs, op: CacheOp) {
    op.PutAccount? ==> op.account != "" && Holds(docs, op.account, op.id)
  }

  ghost predicate LoadedHolds(docs: Docs, l: Loaded) {
    l.m.account != "" ==> Holds(docs, l.m.account, l.id)
  }

  // A loaded mapping that answers for the call's account.
  ghost predicate Answers(docs: Docs, call: Call, l: Loaded) {
    LoadedHolds(docs, l) && l.m.account == call.account
  }

  ghost predicate AnswerHolds(docs: Docs, call: Call, answer: int) {
    call.account != "" ==> Holds(docs, call.account, answer)
  }

  ghost predicate AccountInv(docs: Docs, pr: Proc) {
    var call := pr.call;
    match pr.pc
    case TryDistinct(hit) => hit.Some? ==> AnswerHolds(docs, call, hit.value)
    case FindDistinct(am) => am.Some? ==> Answers(docs, call, am.value)
    case AdoptBind(existing) => Answers(docs, call, existing)
    case BindDistinctTo(am) => Answers(docs, call, am)
    case DeleteOrphan(_, existing) => LoadedHolds(docs, existing)
    case Store(ops, answer) => AnswerHolds(docs, call, answer) && forall op :: op in ops ==> OpHolds(docs, op)
    case Done(answer) => AnswerHolds(docs, call, answer)
    case _ => true
  }

  ghost predicate CacheHolds(docs: Docs, c: Cache) {
    forall a :: a in c.accounts ==> a != "" && Holds(docs, a, c.accounts[a])
  }

  ghost predicate SafeInv(s: State) {
    && Inv(s)
    && (forall pod :: pod in s.caches ==> CacheHolds(s.docs, s.caches[pod]))
    && (forall p :: p in s.procs ==> AccountInv(s.docs, s.procs[p]))
  }

  /** Under the guard, which mapping holds an account never changes. */
  ghost predicate Keeps(docs: Docs, docs': Docs) {
    forall a, id :: a != "" && Holds(docs, a, id) ==> Holds(docs', a, id)
  }

  lemma AccountInvStable(docs: Docs, docs': Docs, pr: Proc)
    requires Keeps(docs, docs') && AccountInv(docs, pr)
    ensures AccountInv(docs', pr)
  {
    if pr.pc.Store? {
      forall op | op in pr.pc.ops ensures OpHolds(docs', op) {
        assert OpHolds(docs, op);
      }
    }
  }

  lemma SafeStepKeeps(s: State, e: Event)
    requires Inv(s) && Enabled(s, e) && SafeDelete(s, e)
    ensures Keeps(s.docs, Next(s, e).docs)
  {
    if e.Move? || (e.Fault? && e.applied) {
      DocsStep(s, e.p);
      hide NextDocs, NextPc;
    }
  }

  lemma CacheMappingHolds(docs: Docs, l: Loaded)
    requires LoadedHolds(docs, l)
    ensures forall op :: op in CacheMapping(l) ==> OpHolds(docs, op)
  {
  }

  // The moving call's own facts hold in the collection its access leaves behind.
  lemma OwnAccountInv(s: State, p: int, found: Option<int>)
    requires SafeInv(s) && p in s.procs
    requires var pr := s.procs[p]; Readable(s.docs, pr.call, pr.pc, found)
    requires var pr := s.procs[p]; Keeps(s.docs, NextDocs(s, pr.call, pr.pc))
    ensures var pr := s.procs[p];
            AccountInv(NextDocs(s, pr.call, pr.pc), Proc(pr.call, NextPc(s, pr.call, pr.pc, found)))
  {
    var pr := s.procs[p];
    if pr.pc.FindAccount? || pr.pc.FindDistinct? || pr.pc.AdoptAccount? {
      OwnReadInv(s, p, found);
    } else {
      var docs' := NextDocs(s, pr.call, pr.pc);
      AccountInvStable(s.docs, docs', pr);
      assert ProcInv(s, pr);
      match pr.pc
      case AdoptBind(existing) => CacheMappingHolds(docs', existing);
      case BindDistinctTo(am) => CacheMappingHolds(docs', am);
      case DeleteOrphan(_, existing) => CacheMappingHolds(docs', existing);
      case _ =>
    }
  }

  // The same for the steps that read a mapping.
  lemma OwnReadInv(s: State, p: int, found: Option<int>)
    requires SafeInv(s) && p in s.procs
    requires var pr := s.procs[p]; pr.pc.FindAccount? || pr.pc.FindDistinct? || pr.pc.AdoptAccount?
    requires var pr := s.procs[p]; Readable(s.docs, pr.call, pr.pc, found)
    ensures var pr := s.procs[p];
            AccountInv(s.docs, Proc(pr.call, NextPc(s, pr.call, pr.pc, found))) && NextDocs(s, pr.call, pr.pc) == s.docs
  {
    var pr := s.procs[p];
    AccountInvStable(s.docs, s.docs, pr);
    assert ProcInv(s, pr);
    if found.Some? {
      CacheMappingHolds(s.docs, Load(s.docs, found).value);
    }
    if pr.pc.FindDistinct? && pr.pc.loaded.Some? {
      CacheMappingHolds(s.docs, pr.pc.loaded.value);
    }
  }

  lemma CachesStable(s: State, p: int, pc': Pc)
    requires SafeInv(s) && p in s.procs
    requires var pr := s.procs[p]; Keeps(s.docs, NextDocs(s, pr.call, pr.pc))
    ensures var s' := Access(s, p, pc');
            forall pod :: pod in s'.caches ==> CacheHolds(s'.docs, s'.caches[pod])
  {
    var pr := s.procs[p];
    assert AccountInv(s.docs, pr);
    var s' := Access(s, p, pc');
    forall pod | pod in s'.caches ensures CacheHolds(s'.docs, s'.caches[pod]) {
      if pod in s.caches { assert CacheHolds(s.docs, s.caches[pod]); }
      if pr.pc.Store? && pr.pc.ops != [] { assert OpHolds(s.docs, pr.pc.ops[0]); }
    }
    hide NextDocs;
  }

  lemma AccessKeepsSafe(s: State, p: int, found: Option<int>, pc': Pc)
    requires SafeInv(s) && p in s.procs
    requires var pr := s.procs[p];
             && Readable(s.docs, pr.call, pr.pc, found)
             && Keeps(s.docs, NextDocs(s, pr.call, pr.pc))
             && (pc' == NextPc(s, pr.call, pr.pc, found) || pc' == Failed)
    ensures SafeInv(Access(s, p, pc'))
  {
    var s' := Access(s, p, pc');
    AccessKeepsInv(s, p, found, pc');
    OwnAccountInv(s, p, found);
    CachesStable(s, p, pc');
    hide Inv, NextDocs, NextPc;
    forall q | q in s.procs && q != p ensures AccountInv(s'.docs, s'.procs[q]) {
      AccountInvStable(s.docs, s'.docs, s.procs[q]);
    }
    assert AccountInv(s'.docs, s'.procs[p]);
  }

  lemma NextKeepsSafe(s: State, e: Event)
    requires SafeInv(s) && Enabled(s, e) && SafeDelete(s, e)
    ensures SafeInv(Next(s, e))
  {
    SafeStepKeeps(s, e);
    if e.Begin? || (e.Fault? && !e.applied) {
      NextKeepsInv(s, e);
      hide Inv;
    } else {
      var pr := s.procs[e.p];
      AccessKeepsSafe(s, e.p, e.found, if e.Move? then NextPc(s, pr.call, pr.pc, e.found) else Failed);
    }
  }

  lemma {:induction false} SafeRunKeeps(s: State, events: seq<Event>)
    requires SafeInv(s) && IsSafeRun(s, events)
    ensures IsRun(s, events) && SafeInv(Run(s, events))
    decreases |events|
  {
    if events != [] {
      NextKeepsSafe(s, events[0]);
      SafeRunKeeps(Next(s, events[0]), events[1..]);
    }
  }

  /** In every interleaving in which the orphan delete meets its guard: one account, one user id,
      at any time on any pod, and no two accounts share one. */
  lemma OneAccountOneUser(events: seq<Event>, p: int, q: int)
    requires IsRun(INIT, events) && IsSafeRun(INIT, events)
    requires var s := Run(INIT, events);
             p in s.procs && q in s.procs && s.procs[p].pc.Done? && s.procs[q].pc.Done?
    ensures var s := Run(INIT, events);
            s.procs[p].call.account != "" && s.procs[q].call.account != "" ==>
              (s.procs[p].call.account == s.procs[q].call.account <==>
               s.procs[p].pc.answer == s.procs[q].pc.answer)
  {
    SafeRunKeeps(INIT, events);
    var s := Run(INIT, events);
    assert AccountInv(s.docs, s.procs[p]) && AccountInv(s.docs, s.procs[q]);
  }

  /** Every account-cache entry on every pod names the one mapping holding that account. */
  lemma CacheNamesTheHolder(events: seq<Event>, pod: int, account: string)
    requires IsRun(INIT, events) && IsSafeRun(INIT, events)
    requires var s := Run(INIT, events); pod in s.caches && account in s.caches[pod].accounts
    ensures var s := Run(INIT, events);
            forall id :: Holds(s.docs, account, id) <==> id == s.caches[pod].accounts[account]
  {
    SafeRunKeeps(INIT, events);
    var s := Run(INIT, events);
    assert CacheHolds(s.docs, s.caches[pod]);
  }

  // --- When every call carries an account nothing is ever deleted ------------------------

  predicate CarriesAccount(e: Event) {
    e.Begin? ==> e.call.account != ""
  }

  ghost predicate AllCarry(s: State) {
    forall p :: p in s.procs ==> s.procs[p].call.account != ""
  }

  /** Unconditionally: if every call carries an account, the guard is met in every interleaving. */
  lemma {:induction false} AccountsMakeItSafe(s: State, events: seq<Event>)
    requires Inv(s) && AllCarry(s) && IsRun(s, events)
    requires forall e :: e in events ==> CarriesAccount(e)
    ensures IsSafeRun(s, events)
    decreases |events|
  {
    if events != [] {
      var e := events[0];
      assert CarriesAccount(e);
      NextKeepsInv(s, e);
      if e.p in s.procs {
        assert ProcInv(s, s.procs[e.p]);
      }
      AccountsMakeItSafe(Next(s, e), events[1..]);
    }
  }

  /** So when every call carries an account, two answered calls have the same account if and only if they have
      the same user, in every interleaving and with no proviso. */
  lemma AccountsAlone(events: seq<Event>, p: int, q: int)
    requires IsRun(INIT, events) && forall e :: e in events ==> CarriesAccount(e)
    requires var s := Run(INIT, events);
             p in s.procs && q in s.procs && s.procs[p].pc.Done? && s.procs[q].pc.Done?
    ensures var s := Run(INIT, events);
            s.procs[p].call.account == s.procs[q].call.account <==> s.procs[p].pc.answer == s.procs[q].pc.answer
  {
    AccountsMakeItSafe(INIT, events);
    AllStillCarry(INIT, events);
    OneAccountOneUser(events, p, q);
  }

  lemma {:induction false} AllStillCarry(s: State, events: seq<Event>)
    requires AllCarry(s) && IsRun(s, events) && forall e :: e in events ==> CarriesAccount(e)
    ensures AllCarry(Run(s, events))
    decreases |events|
  {
    if events != [] {
      assert CarriesAccount(events[0]);
      CarryStep(s, events[0]);
      hide Next, Enabled, AllCarry;
      AllStillCarry(Next(s, events[0]), events[1..]);
    }
  }

  lemma CarryStep(s: State, e: Event)
    requires AllCarry(s) && Enabled(s, e) && CarriesAccount(e)
    ensures AllCarry(Next(s, e))
  {
    hide NextPc, NextDocs;
  }
}
