/** What every call of identity resolution did and what it is answered with, in every interleaving
    (internal/dao/store/identity_lookup.go, identity_atomic.go, identity_cache.go:5-30).

    A trail records what a call has seen and changed: what each of its reads returned and which documents its
    writes added, removed or altered.  The rules below say, from the trail alone, what the answer must be.
 */
module IdentityTrails {
  import opened Wrappers
  import opened IdentityDb
  import opened IdentitySteps

  // An outer None: the read was not made.
  datatype Trail = Trail(
    cachedAccount: Option<Option<int>>, cachedDistinct: Option<Option<int>>,
    byAccount: Option<Option<Loaded>>, byDistinct: Option<Option<Loaded>>,
    adopted: Option<Option<Loaded>>, verified: Option<Option<Loaded>>, bind: Option<BindOutcome>, joined: Option<int>,
    inserted: map<int, Mapping>, deleted: set<int>, changed: map<int, Mapping>)

  const NOTHING := Trail(None, None, None, None, None, None, None, None, map[], {}, map[])

  // --- Recording --------------------------------------------------------------------------------

  function NoteRead(s: State, pr: Proc, found: Option<int>, t: Trail): Trail
    requires Readable(s.docs, pr.call, pr.pc, found)
  {
    var cache := CacheOf(s.caches, pr.call.pod);
    match pr.pc
    case TryAccount => t.(cachedAccount := Some(Lookup(cache.accounts, pr.call.account)))
    case TryDistinct(_) => t.(cachedDistinct := Some(Lookup(cache.distincts, pr.call.distinct)))
    case FindAccount => t.(byAccount := Some(Load(s.docs, found)))
    case FindDistinct(_) => t.(byDistinct := Some(Load(s.docs, found)))
    case AdoptAccount(_) => t.(adopted := Some(Load(s.docs, found)))
    case Verify(_) => t.(verified := Some(Load(s.docs, found)))
    case BindAccountTo(dm) => t.(bind := Some(BindAccountOutcome(s.docs, dm.id, pr.call.account)))
    case AdoptBind(existing) => t.(joined := NoteJoin(s, pr, existing.id))
    case BindDistinctTo(am) => t.(joined := NoteJoin(s, pr, am.id))
    case _ => t
  }

  /** The mapping with this id has the call's distinct id after its access, unless it is gone. */
  function NoteJoin(s: State, pr: Proc, id: int): Option<int> {
    var docs' := NextDocs(s, pr.call, pr.pc);
    if id in docs' && pr.call.distinct !in docs'[id].distincts then None else Some(id)
  }

  /** What an access did to the collection, by comparing it before and after. */
  function NoteWrite(docs: Docs, docs': Docs, t: Trail): Trail {
    t.(inserted := t.inserted + map id | id in docs' && id !in docs :: docs'[id],
       deleted := t.deleted + (docs.Keys - docs'.Keys),
       changed := t.changed + map id | id in docs && id in docs' && docs[id] != docs'[id] :: docs'[id])
  }

  function Note(s: State, pr: Proc, found: Option<int>, t: Trail): Trail
    requires Readable(s.docs, pr.call, pr.pc, found)
  {
    NoteWrite(s.docs, NextDocs(s, pr.call, pr.pc), NoteRead(s, pr, found, t))
  }

  type Trails = map<int, Trail>

  function NextTrails(s: State, ts: Trails, e: Event): Trails
    requires Enabled(s, e) && ts.Keys == s.procs.Keys
  {
    match e
    case Begin(p, _) => ts[p := NOTHING]
    case Move(p, found) => ts[p := Note(s, s.procs[p], found, ts[p])]
    case Fault(p, found, applied) => if applied then ts[p := Note(s, s.procs[p], found, ts[p])] else ts
  }

  /** The trails of all calls after a run. */
  ghost function RunTrails(s: State, ts: Trails, events: seq<Event>): Trails
    requires IsRun(s, events) && ts.Keys == s.procs.Keys
    decreases |events|
  {
    if events == [] then ts else RunTrails(Next(s, events[0]), NextTrails(s, ts, events[0]), events[1..])
  }

  // --- What a trail says about the answer -----------------------------------------------------------

  /** Every id the call was given was cached on its pod when it looked. */
  predicate AllCached(call: Call, t: Trail) {
    && (call.account != "" ==> t.cachedAccount.Some? && t.cachedAccount.value.Some?)
    && (call.distinct != "" ==> t.cachedDistinct.Some? && t.cachedDistinct.value.Some?)
  }

  /** It has read and written nothing in the database. */
  predicate Untouched(t: Trail) {
    t == NOTHING.(cachedAccount := t.cachedAccount, cachedDistinct := t.cachedDistinct)
  }

  /** A visitor is answered with the mapping its lookup found.  If it found none it inserts one of its own, and
      reads again: if that read names another mapping its own is dropped for it. */
  predicate VisitorAnswer(call: Call, t: Trail, answer: int) {
    && t.byAccount.None? && t.adopted.None? && t.bind.None? && t.joined.None? && t.changed == map[]
    && t.byDistinct.Some?
    && match t.byDistinct.value
       case Some(d) => answer == d.id && t.inserted == map[] && t.deleted == {} && t.verified.None?
       case None =>
         && t.inserted != map[] && t.verified.Some?
         && (forall i, j :: i in t.inserted && j in t.inserted ==> i == j)
         && (forall id :: id in t.inserted ==> t.inserted[id] == Mapping("", [call.distinct]))
         && (if t.verified.value.Some? && t.verified.value.value.id !in t.inserted
             then answer == t.verified.value.value.id && t.deleted == t.inserted.Keys
             else answer in t.inserted && t.deleted == {})
  }

  /** The call tries to give its account to the mapping of its distinct id: the account is new, the distinct id is
      not, and its mapping had no account. */
  predicate TriesBind(call: Call, t: Trail) {
    && t.byAccount == Some(None)
    && t.byDistinct.Some? && t.byDistinct.value.Some? && t.byDistinct.value.value.m.account == ""
  }

  /** With an account: the account's mapping as looked up, else the distinct id's if the account could be bound to
      it, else a new one, else the one that took the account in between. */
  predicate LoginAnswer(call: Call, t: Trail, answer: int) {
    && t.verified.None? && t.deleted == {} && t.byAccount.Some?
    && (t.byDistinct.Some? <==> call.distinct != "")
    && (t.bind.Some? <==> TriesBind(call, t))
    && if t.byAccount.value.Some? then
         && answer == t.byAccount.value.value.id && t.inserted == map[] && t.adopted.None?
         && (if t.byDistinct == Some(None) then Joins(call, t, answer) else t.joined.None? && t.changed == map[])
       else if t.bind == Some(Bound) then
         && answer == t.byDistinct.value.value.id && t.inserted == map[] && t.adopted.None?
         && t.joined.None? && t.changed.Keys == {answer} && t.changed[answer].account == call.account
       else if t.inserted != map[] then
         && t.inserted ==
            map[answer := Mapping(call.account, if t.byDistinct == Some(None) then [call.distinct] else [])]
         && t.adopted.None? && t.joined.None? && t.changed == map[]
       else
         && t.adopted.Some? && t.adopted.value.Some? && answer == t.adopted.value.value.id
         && (if t.byDistinct == Some(None) then Joins(call, t, answer) else t.joined.None? && t.changed == map[])
  }

  /** The distinct id was added to the answered mapping, and nothing else changed. */
  predicate Joins(call: Call, t: Trail, answer: int) {
    t.joined == Some(answer)
    && (t.changed == map[]
        || (t.changed.Keys == {answer} && call.distinct in t.changed[answer].distincts))
  }

  predicate CacheAnswer(call: Call, t: Trail, answer: int) {
    Untouched(t) && AllCached(call, t)
    && (if call.account != "" then t.cachedAccount else t.cachedDistinct) == Some(Some(answer))
  }

  /** The rules: from the cache exactly if it has all ids, else as the database says. */
  predicate Explains(call: Call, t: Trail, answer: int) {
    if AllCached(call, t) then CacheAnswer(call, t, answer)
    else if call.account == "" then VisitorAnswer(call, t, answer)
    else LoginAnswer(call, t, answer)
  }

  /** A read by account found a mapping that had the account, one by distinct id a mapping that had that, at the
      moment of the read. */
  ghost predicate ReadsMatch(call: Call, t: Trail) {
    forall l: Loaded ::
      && (t.byAccount == Some(Some(l)) || t.adopted == Some(Some(l)) ==> l.m.account == call.account)
      && (t.byDistinct == Some(Some(l)) || t.verified == Some(Some(l)) ==> call.distinct in l.m.distincts)
  }

  lemma NoteMatches(s: State, pr: Proc, found: Option<int>, t: Trail)
    requires Readable(s.docs, pr.call, pr.pc, found) && ReadsMatch(pr.call, t)
    ensures ReadsMatch(pr.call, Note(s, pr, found, t))
  {
    ReadMatches(s, pr, found, t);
    hide NextDocs, NoteRead;
  }

  lemma ReadMatches(s: State, pr: Proc, found: Option<int>, t: Trail)
    requires Readable(s.docs, pr.call, pr.pc, found) && ReadsMatch(pr.call, t)
    ensures ReadsMatch(pr.call, NoteRead(s, pr, found, t))
  {
    hide BindAccountOutcome, AccountTaken, DistinctTaken, NoteJoin, CacheOf, IdentitySteps.Lookup, NextDocs;
    var t' := NoteRead(s, pr, found, t);
    assert pr.pc.FindAccount? || t'.byAccount == t.byAccount;
    assert pr.pc.FindDistinct? || t'.byDistinct == t.byDistinct;
    assert pr.pc.AdoptAccount? || t'.adopted == t.adopted;
    assert pr.pc.Verify? || t'.verified == t.verified;
  }

  // --- Every step follows them ------------------------------------------------------------------------

  // It has missed the cache and has read these, and written nothing.
  predicate HasRead(call: Call, t: Trail, byAccount: Option<Option<Loaded>>, byDistinct: Option<Option<Loaded>>) {
    && !AllCached(call, t)
    && t == NOTHING.(cachedAccount := t.cachedAccount, cachedDistinct := t.cachedDistinct,
                     byAccount := byAccount, byDistinct := byDistinct)
  }

  // It has found no mapping it could use and needs one of this kind.
  predicate NeedsNew(call: Call, t: Trail, kind: Kind) {
    match kind
    case ForDistinct => call.account == "" && HasRead(call, t, None, Some(None))
    case ForBoth => call.account != "" && call.distinct != "" && HasRead(call, t, Some(None), Some(None))
    case ForAccount =>
      && call.account != ""
      && (call.distinct == "" ==> HasRead(call, t, Some(None), None))
      && (call.distinct != "" ==>
            && t.byDistinct.Some? && t.byDistinct.value.Some?
            && HasRead(call, t.(bind := None), Some(None), t.byDistinct)
            && (t.bind.Some? <==> TriesBind(call, t)) && t.bind != Some(Bound))
  }

  predicate TrailOk(call: Call, pc: Pc, t: Trail) {
    match pc
    case TryAccount => call.account != "" && t == NOTHING
    case TryDistinct(hit) =>
      && call.distinct != ""
      && t == NOTHING.(cachedAccount := if call.account != "" then Some(hit) else None)
    case FindAccount => call.account != "" && HasRead(call, t, None, None)
    case FindDistinct(am) =>
      && call.distinct != ""
      && HasRead(call, t, if call.account != "" then Some(am) else None, None)
    case Alloc(kind) => NeedsNew(call, t, kind)
    case Insert(kind, _) => NeedsNew(call, t, kind)
    case AdoptAccount(kind) => !kind.ForDistinct? && NeedsNew(call, t, kind)
    case AdoptBind(existing) =>
      t.adopted == Some(Some(existing)) && NeedsNew(call, t.(adopted := None), ForBoth)
    case Verify(id) =>
      t.inserted == map[id := Mapping("", [call.distinct])] && NeedsNew(call, t.(inserted := map[]), ForDistinct)
    case DeleteOrphan(id, existing) =>
      && t.inserted == map[id := Mapping("", [call.distinct])] && t.verified == Some(Some(existing))
      && existing.id != id && NeedsNew(call, t.(inserted := map[], verified := None), ForDistinct)
    case BindDistinctTo(am) =>
      call.account != "" && call.distinct != "" && HasRead(call, t, Some(Some(am)), Some(None))
    case BindAccountTo(dm) =>
      && call.account != "" && call.distinct != "" && dm.m.account == ""
      && HasRead(call, t, Some(None), Some(Some(dm)))
    case Store(ops, answer) => Explains(call, t, answer) && forall op :: op in ops ==> op.id !in t.deleted
    case Done(answer) => Explains(call, t, answer)
    case Failed => true
  }

  ghost predicate TrailsOk(s: State, ts: Trails) {
    && ts.Keys == s.procs.Keys
    && forall p :: p in s.procs ==> TrailOk(s.procs[p].call, s.procs[p].pc, ts[p]) && ReadsMatch(s.procs[p].call, ts[p])
  }

  // Reads change nothing in the collection.
  lemma NoWrite(docs: Docs, t: Trail)
    ensures NoteWrite(docs, docs, t) == t
  {
    var w := NoteWrite(docs, docs, t);
    assert w.inserted == t.inserted && w.deleted == t.deleted && w.changed == t.changed;
  }

  lemma CacheReadsFollow(s: State, pr: Proc, found: Option<int>, t: Trail)
    requires Readable(s.docs, pr.call, pr.pc, found) && TrailOk(pr.call, pr.pc, t)
    requires pr.pc.TryAccount? || pr.pc.TryDistinct?
    ensures TrailOk(pr.call, NextPc(s, pr.call, pr.pc, found), NoteRead(s, pr, found, t))
  {
    hide VisitorAnswer, LoginAnswer;
  }

  lemma FindsFollow(s: State, pr: Proc, found: Option<int>, t: Trail)
    requires Readable(s.docs, pr.call, pr.pc, found) && TrailOk(pr.call, pr.pc, t)
    requires pr.pc.FindAccount? || pr.pc.FindDistinct?
    ensures TrailOk(pr.call, NextPc(s, pr.call, pr.pc, found), NoteRead(s, pr, found, t))
  {
    hide CacheAnswer;
  }

  lemma AllocFollows(s: State, pr: Proc, found: Option<int>, t: Trail)
    requires Readable(s.docs, pr.call, pr.pc, found) && TrailOk(pr.call, pr.pc, t)
    requires pr.pc.Alloc? || pr.pc.Store?
    ensures TrailOk(pr.call, NextPc(s, pr.call, pr.pc, found), NoteRead(s, pr, found, t))
  {
    hide NeedsNew, Explains;
    if pr.pc.Store? && pr.pc.ops != [] {
      assert forall op :: op in pr.pc.ops[1..] ==> op in pr.pc.ops;
    }
  }

  lemma AdoptFollows(s: State, pr: Proc, found: Option<int>, t: Trail)
    requires Readable(s.docs, pr.call, pr.pc, found) && TrailOk(pr.call, pr.pc, t)
    requires pr.pc.AdoptAccount?
    ensures TrailOk(pr.call, NextPc(s, pr.call, pr.pc, found), NoteRead(s, pr, found, t))
  {
    hide CacheAnswer, VisitorAnswer;
    var t' := NoteRead(s, pr, found, t);
    assert t'.(adopted := None) == t;
  }

  lemma VerifyFollows(s: State, pr: Proc, found: Option<int>, t: Trail)
    requires Readable(s.docs, pr.call, pr.pc, found) && TrailOk(pr.call, pr.pc, t)
    requires pr.pc.Verify?
    ensures TrailOk(pr.call, NextPc(s, pr.call, pr.pc, found), NoteRead(s, pr, found, t))
  {
    hide CacheAnswer, LoginAnswer;
    var t' := NoteRead(s, pr, found, t);
    assert t'.(inserted := map[], verified := None) == t.(inserted := map[]);
    assert pr.pc.id in t.inserted;
  }

  // --- Writes ---

  lemma InsertFollows(s: State, pr: Proc, found: Option<int>, t: Trail)
    requires Inv(s) && ProcInv(s, pr) && Readable(s.docs, pr.call, pr.pc, found) && TrailOk(pr.call, pr.pc, t)
    requires pr.pc.Insert?
    ensures TrailOk(pr.call, NextPc(s, pr.call, pr.pc, found), Note(s, pr, found, t))
  {
    var id, m := pr.pc.id, NewMapping(pr.call, pr.pc.kind);
    assert id !in s.docs;
    hide Inv, ProcInv, Explains, NoteWrite, InsertConflicts, NeedsNew, NewMapping;
    NeedsNewMeans(pr.call, t, pr.pc.kind);
    if InsertConflicts(s.docs, id, m) {
      NoWrite(s.docs, t);
    } else {
      InsertNotes(s.docs, id, m, t);
      var t' := t.(inserted := map[id := m]);
      assert t'.(inserted := map[]) == t;
      if pr.pc.kind.ForDistinct? {
        assert m == Mapping("", [pr.call.distinct]) by { NewVisitor(pr.call); }
      } else {
        NewLogin(pr.call, t, pr.pc.kind, id);
      }
    }
  }

  lemma NeedsNewMeans(call: Call, t: Trail, kind: Kind)
    requires NeedsNew(call, t, kind)
    ensures t.inserted == map[] && t.deleted == {} && (kind.ForDistinct? <==> call.account == "")
  {
  }

  lemma NewVisitor(call: Call)
    ensures NewMapping(call, ForDistinct) == Mapping("", [call.distinct])
  {
  }

  lemma NewLogin(call: Call, t: Trail, kind: Kind, id: int)
    requires NeedsNew(call, t, kind) && !kind.ForDistinct?
    ensures Explains(call, t.(inserted := map[id := NewMapping(call, kind)]), id)
  {
    hide CacheAnswer, VisitorAnswer;
    assert id in map[id := NewMapping(call, kind)];
  }

  lemma InsertNotes(docs: Docs, id: int, m: Mapping, t: Trail)
    requires id !in docs && t.inserted == map[]
    ensures NoteWrite(docs, docs[id := m], t) == t.(inserted := map[id := m])
  {
    var t' := NoteWrite(docs, docs[id := m], t);
    assert t'.inserted == map[id := m] && t'.deleted == t.deleted && t'.changed == t.changed;
  }

  lemma DeleteFollows(s: State, pr: Proc, found: Option<int>, t: Trail)
    requires Inv(s) && pr.pc.DeleteOrphan? && TrailOk(pr.call, pr.pc, t) && pr.pc.id in s.docs
    ensures TrailOk(pr.call, NextPc(s, pr.call, pr.pc, found), Note(s, pr, found, t))
  {
    hide Inv, CacheAnswer, LoginAnswer;
    var id := pr.pc.id;
    var t' := NoteWrite(s.docs, s.docs - {id}, t);
    assert t'.inserted == t.inserted && t'.deleted == {id} && t'.changed == map[];
    assert t'.inserted.Keys == {id};
  }

  lemma JoinFollows(s: State, pr: Proc, found: Option<int>, t: Trail)
    requires Inv(s) && TrailOk(pr.call, pr.pc, t) && (pr.pc.AdoptBind? || pr.pc.BindDistinctTo?)
    ensures TrailOk(pr.call, NextPc(s, pr.call, pr.pc, found), Note(s, pr, found, t))
  {
    hide Inv, CacheAnswer, VisitorAnswer;
    var id := if pr.pc.AdoptBind? then pr.pc.existing.id else pr.pc.am.id;
    var docs' := BindDistinct(s.docs, id, pr.call.distinct);
    Joined(s, pr, id);
    var r := NoteRead(s, pr, found, t);
    JoinNotes(s.docs, id, pr.call.distinct, r);
    hide NoteWrite, BindDistinct, Explains, NoteJoin;
    if pr.pc.AdoptBind? {
      AdoptedLogin(pr.call, t, pr.pc.existing, NoteWrite(s.docs, docs', r).changed);
    } else {
      KnownLogin(pr.call, t, pr.pc.am, NoteWrite(s.docs, docs', r).changed);
    }
  }

  lemma Joined(s: State, pr: Proc, id: int)
    requires NextDocs(s, pr.call, pr.pc) == BindDistinct(s.docs, id, pr.call.distinct)
    ensures NoteJoin(s, pr, id) == Some(id)
  {
    var docs', d := BindDistinct(s.docs, id, pr.call.distinct), pr.call.distinct;
    if id in s.docs && d !in s.docs[id].distincts {
      assert docs'[id].distincts[|s.docs[id].distincts|] == d;
    }
  }

  lemma AdoptedLogin(call: Call, t: Trail, l: Loaded, changed: map<int, Mapping>)
    requires t.adopted == Some(Some(l)) && NeedsNew(call, t.(adopted := None), ForBoth)
    requires changed == map[] || (changed.Keys == {l.id} && call.distinct in changed[l.id].distincts)
    ensures Explains(call, t.(joined := Some(l.id), changed := changed), l.id) && t.deleted == {}
  {
    hide CacheAnswer, VisitorAnswer;
  }

  lemma KnownLogin(call: Call, t: Trail, l: Loaded, changed: map<int, Mapping>)
    requires call.account != "" && call.distinct != "" && HasRead(call, t, Some(Some(l)), Some(None))
    requires changed == map[] || (changed.Keys == {l.id} && call.distinct in changed[l.id].distincts)
    ensures Explains(call, t.(joined := Some(l.id), changed := changed), l.id) && t.deleted == {}
  {
    hide CacheAnswer, VisitorAnswer;
  }

  lemma JoinNotes(docs: Docs, id: int, d: string, t: Trail)
    requires t.changed == map[]
    ensures var t' := NoteWrite(docs, BindDistinct(docs, id, d), t);
            && t' == t.(changed := t'.changed)
            && (t'.changed == map[] || (t'.changed.Keys == {id} && d in t'.changed[id].distincts))
  {
    var docs' := BindDistinct(docs, id, d);
    var t' := NoteWrite(docs, docs', t);
    assert t'.inserted == t.inserted && t'.deleted == t.deleted;
    if docs' != docs {
      assert docs'[id].distincts[|docs[id].distincts|] == d;
      assert t'.changed.Keys == {id};
    }
  }

  lemma BindFollows(s: State, pr: Proc, found: Option<int>, t: Trail)
    requires Inv(s) && TrailOk(pr.call, pr.pc, t) && pr.pc.BindAccountTo?
    ensures TrailOk(pr.call, NextPc(s, pr.call, pr.pc, found), Note(s, pr, found, t))
  {
    hide Inv, CacheAnswer, VisitorAnswer;
    var id := pr.pc.dm.id;
    var r := NoteRead(s, pr, found, t);
    BindNotes(s.docs, id, pr.call.account, r);
    assert r.(bind := None) == t;
    hide NoteWrite, BindAccount, BindAccountOutcome;
  }

  lemma BindNotes(docs: Docs, id: int, a: string, t: Trail)
    requires t.changed == map[] && a != ""
    ensures var t' := NoteWrite(docs, BindAccount(docs, id, a), t);
            && t' == t.(changed := t'.changed)
            && (if BindAccountOutcome(docs, id, a).Bound?
                then t'.changed.Keys == {id} && t'.changed[id].account == a
                else t'.changed == map[])
  {
    var docs' := BindAccount(docs, id, a);
    var t' := NoteWrite(docs, docs', t);
    assert t'.inserted == t.inserted && t'.deleted == t.deleted;
    if docs' != docs {
      assert t'.changed.Keys == {id};
    } else {
      assert t'.changed == map[];
    }
  }

  // --- Whose documents they are -----------------------------------------------------------------------

  /** The documents of the collection are exactly those that some call inserted and did not delete, and no two
      calls inserted the same one. */
  ghost predicate OwnersOk(docs: Docs, ever: set<int>, ts: Trails) {
    && (forall p, id :: p in ts && id in ts[p].inserted ==> id in ever && (id in docs <==> id !in ts[p].deleted))
    && (forall p, q, id :: p in ts && q in ts && id in ts[p].inserted && id in ts[q].inserted ==> p == q)
    && (forall p, id :: p in ts && id in ts[p].deleted ==> id in ts[p].inserted)
    && (forall id :: id in docs ==> exists p :: p in ts && id in ts[p].inserted)
  }

  ghost predicate AllOk(s: State, ts: Trails) {
    Inv(s) && TrailsOk(s, ts) && OwnersOk(s.docs, s.ever, ts)
  }

  lemma NoteFollows(s: State, p: int, found: Option<int>, ts: Trails)
    requires AllOk(s, ts) && p in s.procs && Readable(s.docs, s.procs[p].call, s.procs[p].pc, found)
    ensures var pr := s.procs[p];
            TrailOk(pr.call, NextPc(s, pr.call, pr.pc, found), Note(s, pr, found, ts[p]))
  {
    var pr := s.procs[p];
    assert TrailOk(pr.call, pr.pc, ts[p]) && ProcInv(s, pr);
    if pr.pc.DeleteOrphan? {
      assert pr.pc.id in ts[p].inserted && pr.pc.id in s.docs by {
        assert ts[p].inserted == map[pr.pc.id := Mapping("", [pr.call.distinct])];
        assert ts[p].deleted == {} by { hide OwnersOk; }
      }
    }
    hide Inv, ProcInv, TrailOk, TrailsOk, OwnersOk, NextPc;
    var t := ts[p];
    NoWrite(s.docs, NoteRead(s, pr, found, t));
    match pr.pc
    case TryAccount => CacheReadsFollow(s, pr, found, t);
    case TryDistinct(_) => CacheReadsFollow(s, pr, found, t);
    case FindAccount => FindsFollow(s, pr, found, t);
    case FindDistinct(_) => FindsFollow(s, pr, found, t);
    case Alloc(_) => AllocFollows(s, pr, found, t);
    case Insert(_, _) => InsertFollows(s, pr, found, t);
    case AdoptAccount(_) => AdoptFollows(s, pr, found, t);
    case AdoptBind(_) => JoinFollows(s, pr, found, t);
    case Verify(_) => VerifyFollows(s, pr, found, t);
    case DeleteOrphan(_, _) => DeleteFollows(s, pr, found, t);
    case BindDistinctTo(_) => JoinFollows(s, pr, found, t);
    case BindAccountTo(_) => BindFollows(s, pr, found, t);
    case Store(_, _) => AllocFollows(s, pr, found, t);
    case _ =>
  }

  // An access of one call: what it notes of its own, seen by the owners.
  lemma OwnersFollow(s: State, p: int, found: Option<int>, ts: Trails)
    requires AllOk(s, ts) && p in s.procs && Readable(s.docs, s.procs[p].call, s.procs[p].pc, found)
    ensures var docs' := NextDocs(s, s.procs[p].call, s.procs[p].pc);
            OwnersOk(docs', s.ever + (docs'.Keys - s.docs.Keys), ts[p := Note(s, s.procs[p], found, ts[p])])
  {
    hide Explains, ReadsMatch, OwnersOk, NeedsNew;
    var pr := s.procs[p];
    var docs' := NextDocs(s, pr.call, pr.pc);
    NewIdsAreNew(s, p);
    OwnDeletes(s, p, ts[p]);
    NotedReads(s, pr, found, ts[p]);
    hide Inv, ProcInv, TrailOk, TrailsOk, NextDocs, NoteRead;
    NotesOwners(s.docs, docs', s.ever, ts, p, NoteRead(s, pr, found, ts[p]));
  }

  lemma NotedReads(s: State, pr: Proc, found: Option<int>, t: Trail)
    requires Readable(s.docs, pr.call, pr.pc, found)
    ensures NoteRead(s, pr, found, t).inserted == t.inserted && NoteRead(s, pr, found, t).deleted == t.deleted
  {
  }

  lemma NewIdsAreNew(s: State, p: int)
    requires Inv(s) && p in s.procs
    ensures s.docs.Keys <= s.ever
    ensures forall id :: id in NextDocs(s, s.procs[p].call, s.procs[p].pc) && id !in s.docs ==> id !in s.ever
  {
    DocsStep(s, p);
    assert ProcInv(s, s.procs[p]);
    hide NextDocs;
  }

  lemma OwnDeletes(s: State, p: int, t: Trail)
    requires p in s.procs && TrailOk(s.procs[p].call, s.procs[p].pc, t)
    ensures forall id :: id in s.docs && id !in NextDocs(s, s.procs[p].call, s.procs[p].pc) ==>
              id in t.inserted && id !in t.deleted
  {
    DocsStep(s, p);
    hide NextDocs, Explains;
  }

  lemma NotesOwners(docs: Docs, docs': Docs, ever: set<int>, ts: Trails, p: int, r: Trail)
    requires OwnersOk(docs, ever, ts) && docs.Keys <= ever && p in ts
    requires forall id :: id in docs' && id !in docs ==> id !in ever
    requires forall id :: id in docs && id !in docs' ==> id in ts[p].inserted && id !in ts[p].deleted
    requires r.inserted == ts[p].inserted && r.deleted == ts[p].deleted
    ensures OwnersOk(docs', ever + (docs'.Keys - docs.Keys), ts[p := NoteWrite(docs, docs', r)])
  {
    WriteNotes(docs, docs', r);
    var t := NoteWrite(docs, docs', r);
    hide NoteWrite;
    var ts' := ts[p := t];
    forall id | id in docs' ensures exists q :: q in ts' && id in ts'[q].inserted {
      if id in docs {
        var q :| q in ts && id in ts[q].inserted;
        assert q in ts' && id in ts'[q].inserted;
      } else {
        assert p in ts' && id in ts'[p].inserted;
      }
    }
  }

  lemma WriteNotes(docs: Docs, docs': Docs, r: Trail)
    ensures var t := NoteWrite(docs, docs', r);
            && (forall id :: id in t.inserted <==> id in r.inserted || (id in docs' && id !in docs))
            && (forall id :: id in t.deleted <==> id in r.deleted || (id in docs && id !in docs'))
  {
  }

  lemma AccessFollows(s: State, p: int, found: Option<int>, pc': Pc, ts: Trails)
    requires AllOk(s, ts) && p in s.procs && Readable(s.docs, s.procs[p].call, s.procs[p].pc, found)
    requires pc' == NextPc(s, s.procs[p].call, s.procs[p].pc, found) || pc' == Failed
    ensures AllOk(Access(s, p, pc'), ts[p := Note(s, s.procs[p], found, ts[p])])
  {
    hide Explains, ReadsMatch, OwnersOk, NextPc, NextDocs, Note;
    AccessKeepsInv(s, p, found, pc');
    NoteFollows(s, p, found, ts);
    NoteMatches(s, s.procs[p], found, ts[p]);
    OwnersFollow(s, p, found, ts);
    assert TrailOk(s.procs[p].call, Failed, Note(s, s.procs[p], found, ts[p]));
    hide Inv, TrailOk;
  }

  /** Every step of every call, faults included, follows the rules. */
  lemma StepFollows(s: State, e: Event, ts: Trails)
    requires AllOk(s, ts) && Enabled(s, e)
    ensures AllOk(Next(s, e), NextTrails(s, ts, e))
  {
    if e.Begin? {
      NextKeepsInv(s, e);
      hide Inv;
      StartsOk(e.call);
      hide TrailOk;
      NewCallOwners(s.docs, s.ever, ts, e.p);
    } else if e.Fault? && !e.applied {
      NextKeepsInv(s, e);
      assert TrailOk(s.procs[e.p].call, Failed, ts[e.p]);
      hide Inv, TrailOk, OwnersOk;
    } else {
      var pr := s.procs[e.p];
      hide AllOk, Access;
      AccessFollows(s, e.p, e.found, if e.Move? then NextPc(s, pr.call, pr.pc, e.found) else Failed, ts);
    }
  }

  lemma StartsOk(call: Call)
    requires call.account != "" || call.distinct != ""
    ensures TrailOk(call, Start(call), NOTHING)
  {
  }

  lemma NewCallOwners(docs: Docs, ever: set<int>, ts: Trails, p: int)
    requires OwnersOk(docs, ever, ts) && p !in ts
    ensures OwnersOk(docs, ever, ts[p := NOTHING])
  {
    var ts' := ts[p := NOTHING];
    forall id | id in docs ensures exists q :: q in ts' && id in ts'[q].inserted {
      var q :| q in ts && id in ts[q].inserted;
      assert q in ts' && id in ts'[q].inserted;
    }
  }

  lemma {:induction false} RunFollows(s: State, ts: Trails, events: seq<Event>)
    requires AllOk(s, ts) && IsRun(s, events)
    ensures AllOk(Run(s, events), RunTrails(s, ts, events))
    decreases |events|
  {
    if events != [] {
      StepFollows(s, events[0], ts);
      hide AllOk, Enabled, Next;
      RunFollows(Next(s, events[0]), NextTrails(s, ts, events[0]), events[1..]);
    }
  }

  lemma EmptyFollows()
    ensures AllOk(INIT, map[])
  {
  }

  // --- What that means for whole runs from the empty collection ----------------------------------------

  lemma CallFollows(events: seq<Event>, p: int)
    requires IsRun(INIT, events) && p in Run(INIT, events).procs
    ensures var s, ts := Run(INIT, events), RunTrails(INIT, map[], events);
            p in ts && TrailOk(s.procs[p].call, s.procs[p].pc, ts[p]) && ReadsMatch(s.procs[p].call, ts[p])
  {
    EmptyFollows();
    RunFollows(INIT, map[], events);
    hide IsRun, Run, RunTrails, OwnersOk, Inv, TrailOk;
  }

  /** Every answer of every run is the one the rules give for what the call read and wrote. */
  lemma AnswersFollowTheRules(events: seq<Event>, p: int)
    requires IsRun(INIT, events)
    requires p in Run(INIT, events).procs && Run(INIT, events).procs[p].pc.Done?
    ensures p in RunTrails(INIT, map[], events)
    ensures var pr := Run(INIT, events).procs[p];
            Explains(pr.call, RunTrails(INIT, map[], events)[p], pr.pc.answer)
            && ReadsMatch(pr.call, RunTrails(INIT, map[], events)[p])
  {
    hide IsRun, Run, RunTrails, Explains;
    CallFollows(events, p);
  }

  /** No call is answered with an id that it deleted itself, or puts one into a cache. */
  lemma NoOwnDeleteIsUsed(events: seq<Event>, p: int)
    requires IsRun(INIT, events) && p in Run(INIT, events).procs
    ensures p in RunTrails(INIT, map[], events)
    ensures var pc, t := Run(INIT, events).procs[p].pc, RunTrails(INIT, map[], events)[p];
            && (pc.Done? ==> pc.answer !in t.deleted)
            && (pc.Store? ==> pc.answer !in t.deleted && forall op :: op in pc.ops ==> op.id !in t.deleted)
  {
    hide IsRun, Run, RunTrails, Explains;
    CallFollows(events, p);
    var pr, t := Run(INIT, events).procs[p], RunTrails(INIT, map[], events)[p];
    if pr.pc.Done? || pr.pc.Store? {
      AnswerIsKept(pr.call, t, pr.pc.answer);
    }
  }

  lemma AnswerIsKept(call: Call, t: Trail, answer: int)
    requires Explains(call, t, answer)
    ensures answer !in t.deleted
  {
  }

  /** At every moment of every run the collection holds exactly the mappings that calls inserted and have not
      deleted themselves, each inserted by one call only.  So an answer that is the call's own stays there. */
  lemma OnlyItsOwnerDeletes(events: seq<Event>, id: int)
    requires IsRun(INIT, events)
    ensures var docs, ts := Run(INIT, events).docs, RunTrails(INIT, map[], events);
            && (id in docs <==> exists p :: p in ts && id in ts[p].inserted && id !in ts[p].deleted)
            && (forall p, q :: p in ts && q in ts && id in ts[p].inserted && id in ts[q].inserted ==> p == q)
            && (forall p :: p in ts && id in ts[p].deleted ==> id in ts[p].inserted)
  {
    EmptyFollows();
    RunFollows(INIT, map[], events);
    hide IsRun, Run, RunTrails, TrailsOk, Inv;
  }
}
