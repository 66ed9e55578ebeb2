/** The identity resolver as objects: pods with their own caches over one shared collection,
    each call run to completion (internal/dao/store/identity*.go). */
module IdentityResolvers {
  import opened Wrappers
  import opened IdentityDb
  import opened IdentitySpec

  /** The id_mapping and id_counter collections. */
  class Database {
    var docs: Docs
    var counter: int

    constructor ()
      ensures docs == map[] && counter == 0
    {
      docs, counter := map[], 0;
    }

    ghost predicate Valid()
      reads this
    {
      Sound(docs, counter)
    }

    method FindByAccountID(account: string) returns (found: Option<int>)
      ensures FindsAccount(docs, account, found)
    {
      if AccountTaken(docs, account) {
        var id :| id in docs.Keys && docs[id].account == account;
        return Some(id);
      }
      return None;
    }

    method FindByDistinctID(distinct: string) returns (found: Option<int>)
      ensures FindsDistinct(docs, distinct, found)
    {
      if DistinctTaken(docs, distinct) {
        var id :| id in docs.Keys && distinct in docs[id].distincts;
        return Some(id);
      }
      return None;
    }

    /** The counter upsert, retried while its first creation is lost to another pod. */
    method NextUserID(lostRaces: nat) returns (id: Option<int>)
      modifies this`counter
      ensures id.None? <==> lostRaces >= 8
      ensures id.Some? ==> id.value == counter == old(counter) + 1
      ensures id.None? ==> counter == old(counter)
    {
      var attempt := 0;
      while attempt < MAX_ATTEMPTS
        invariant attempt <= lostRaces && attempt <= MAX_ATTEMPTS
        invariant counter == old(counter)
      {
        if attempt >= lostRaces {
          counter := counter + 1;
          return Some(counter);
        }
        attempt := attempt + 1;
      }
      return None;
    }

    method InsertOne(id: int, m: Mapping) returns (ok: bool)
      modifies this`docs
      ensures ok == !InsertConflicts(old(docs), id, m)
      ensures docs == if ok then old(docs)[id := m] else old(docs)
    {
      ok := !InsertConflicts(docs, id, m);
      if ok {
        docs := docs[id := m];
      }
    }
  }

  class IdentityResolver {
    const db: Database
    var accountCache: map<string, int>
    var distinctCache: map<string, int>

    constructor (db: Database)
      ensures this.db == db && accountCache == map[] && distinctCache == map[]
    {
      this.db := db;
      accountCache, distinctCache := map[], map[];
    }

    /** Cached entries say what the collection says. */
    ghost predicate Valid()
      reads this, db
    {
      && db.Valid()
      && (forall a :: a in accountCache ==> a != "" && Holds(db.docs, a, accountCache[a]))
      && (forall d :: d in distinctCache ==>
            distinctCache[d] in db.docs && d in db.docs[distinctCache[d]].distincts)
    }

    /** A full cache hit answers as the directory would, and no binding was due. */
    method TryCache(account: string, distinct: string, ghost t: Directory) returns (hit: Option<int>)
      requires Valid() && Represents(db.docs, db.counter, t)
      requires account != "" || distinct != ""
      ensures hit.Some? ==> hit.value == Answer(t, account, distinct) && After(t, account, distinct) == t
      ensures hit.Some? <==> (account == "" || account in accountCache) && (distinct == "" || distinct in distinctCache)
    {
      if account != "" && distinct != "" {
        if account in accountCache && distinct in distinctCache {
          KnownLogin(db.docs, db.counter, t, account, distinct, accountCache[account], Some(distinctCache[distinct]));
          return Some(accountCache[account]);
        }
        return None;
      }
      if account != "" {
        if account in accountCache {
          KnownLogin(db.docs, db.counter, t, account, distinct, accountCache[account], None);
          return Some(accountCache[account]);
        }
        return None;
      }
      if distinct in distinctCache {
        KnownVisitor(db.docs, db.counter, t, distinct, distinctCache[distinct]);
        return Some(distinctCache[distinct]);
      }
      return None;
    }

    method CacheMapping(id: int, m: Mapping)
      requires Valid() && id in db.docs && db.docs[id] == m
      modifies this
      ensures Valid()
      ensures m.account != "" ==> m.account in accountCache && accountCache[m.account] == id
      ensures forall d :: d in m.distincts ==> d in distinctCache && distinctCache[d] == id
    {
      if m.account != "" {
        accountCache := accountCache[m.account := id];
      }
      for i := 0 to |m.distincts|
        invariant Valid()
        invariant m.account != "" ==> m.account in accountCache && accountCache[m.account] == id
        invariant forall d :: d in m.distincts[..i] ==> d in distinctCache && distinctCache[d] == id
      {
        distinctCache := distinctCache[m.distincts[i] := id];
      }
      assert m.distincts[..|m.distincts|] == m.distincts;
    }

    /** A new mapping for the account; if another pod made it first, theirs is adopted. */
    method AtomicCreateForAccountID(account: string, lostRaces: nat) returns (r: Option<int>)
      requires Valid() && account != ""
      modifies this, db
      ensures Valid()
      ensures r.None? <==> lostRaces >= MAX_ATTEMPTS
      ensures r.None? ==> db.docs == old(db.docs) && db.counter == old(db.counter)
      ensures r.Some? ==> db.counter == old(db.counter) + 1
      ensures r.Some? && !AccountTaken(old(db.docs), account) ==>
                r.value == db.counter && db.docs == old(db.docs)[db.counter := Mapping(account, [])]
      ensures r.Some? && AccountTaken(old(db.docs), account) ==>
                Holds(db.docs, account, r.value) && db.docs == old(db.docs)
    {
      var id := db.NextUserID(lostRaces);
      if id.None? {
        return None;
      }
      var ok := db.InsertOne(id.value, Mapping(account, []));
      if !ok {
        var existing := db.FindByAccountID(account);
        match existing {
          case Some(e) =>
            CacheMapping(e, db.docs[e]);
            return Some(e);
          case None =>
            assert false;
        }
      }
      accountCache := accountCache[account := id.value];
      return id;
    }

    /** A new mapping for the distinct id; if a lookup then names another one, ours is dropped for it. */
    method AtomicCreateForDistinctID(distinct: string, lostRaces: nat) returns (r: Option<int>)
      requires Valid() && distinct != ""
      modifies this, db
      ensures Valid()
      ensures r.None? <==> lostRaces >= MAX_ATTEMPTS
      ensures r.None? ==> db.docs == old(db.docs) && db.counter == old(db.counter)
      ensures r.Some? ==> db.counter == old(db.counter) + 1
      ensures r.Some? ==> r.value in db.docs && distinct in db.docs[r.value].distincts
      ensures r.Some? ==>
                (r.value == db.counter && db.docs == old(db.docs)[db.counter := Mapping("", [distinct])]) ||
                (DistinctTaken(old(db.docs), distinct) && db.docs == old(db.docs))
    {
      var id := db.NextUserID(lostRaces);
      if id.None? {
        return None;
      }
      var ok := db.InsertOne(id.value, Mapping("", [distinct]));
      assert ok;
      var existing := db.FindByDistinctID(distinct);
      if existing.Some? && existing.value != id.value {
        db.docs := db.docs - {id.value};
        assert db.docs == old(db.docs);
        CacheMapping(existing.value, db.docs[existing.value]);
        return existing;
      }
      distinctCache := distinctCache[distinct := id.value];
      return id;
    }

    /** A new mapping with both ids; if the account was taken first, the distinct id joins it. */
    method AtomicCreateForBoth(account: string, distinct: string, lostRaces: nat) returns (r: Option<int>)
      requires Valid() && account != "" && distinct != ""
      modifies this, db
      ensures Valid()
      ensures r.None? <==> lostRaces >= MAX_ATTEMPTS
      ensures r.None? ==> db.docs == old(db.docs) && db.counter == old(db.counter)
      ensures r.Some? ==> db.counter == old(db.counter) + 1
      ensures r.Some? && !AccountTaken(old(db.docs), account) ==>
                r.value == db.counter && db.docs == old(db.docs)[db.counter := Mapping(account, [distinct])]
      ensures r.Some? && AccountTaken(old(db.docs), account) ==>
                Holds(db.docs, account, r.value) && db.docs == BindDistinct(old(db.docs), r.value, distinct)
    {
      var id := db.NextUserID(lostRaces);
      if id.None? {
        return None;
      }
      var ok := db.InsertOne(id.value, Mapping(account, [distinct]));
      if !ok {
        var existing := db.FindByAccountID(account);
        match existing {
          case Some(e) =>
            AtomicBindDistinctToAccount(e, distinct);
            CacheMapping(e, db.docs[e]);
            distinctCache := distinctCache[distinct := e];
            return Some(e);
          case None =>
            assert false;
        }
      }
      accountCache := accountCache[account := id.value];
      distinctCache := distinctCache[distinct := id.value];
      return id;
    }

    method AtomicBindDistinctToAccount(id: int, distinct: string)
      requires Valid() && distinct != ""
      modifies db`docs
      ensures Valid()
      ensures db.docs == BindDistinct(old(db.docs), id, distinct)
    {
      db.docs := BindDistinct(db.docs, id, distinct);
    }

    /** Binds the account to an unbound mapping; refused when it is bound or the account is taken. */
    method AtomicBindAccountToDistinct(id: int, account: string) returns (bound: bool)
      requires Valid() && account != ""
      modifies db`docs
      ensures Valid()
      ensures bound == BindAccountOutcome(old(db.docs), id, account).Bound?
      ensures db.docs == BindAccount(old(db.docs), id, account)
    {
      bound := BindAccountOutcome(db.docs, id, account).Bound?;
      db.docs := BindAccount(db.docs, id, account);
    }

    /** What one call means for the collection, its caches and its caller. */
    twostate predicate Resolves(account: string, distinct: string, lostRaces: nat, new r: Option<int>, t: Directory)
      reads this, db
    {
      && Valid()
      && (r.None? <==> lostRaces >= MAX_ATTEMPTS && Allocates(t, account, distinct))
      && (r.None? ==> Represents(db.docs, db.counter, t))
      && (r.Some? ==> r.value == Answer(t, account, distinct)
                      && Represents(db.docs, db.counter, After(t, account, distinct)))
      && DocsGrow(old(db.docs), db.docs)
    }

    /** Resolves one call against the shared collection exactly as the directory does: whatever is
        in this pod's caches, the answer, the id issued and the bindings made are the directory's. */
    method Resolve(account: string, distinct: string, lostRaces: nat, ghost t: Directory) returns (r: Option<int>)
      requires Valid() && Represents(db.docs, db.counter, t)
      requires account != "" || distinct != ""
      modifies this, db
      ensures Resolves(account, distinct, lostRaces, r, t)
    {
      r := TryCache(account, distinct, t);
      if r.Some? {
        NoAllocation(t, account, distinct);
        return;
      }
      r := ResolveFromDB(account, distinct, lostRaces, t);
    }

    method ResolveFromDB(account: string, distinct: string, lostRaces: nat,
                         ghost t: Directory) returns (r: Option<int>)
      requires Valid() && Represents(db.docs, db.counter, t)
      requires account != "" || distinct != ""
      modifies this, db
      ensures Resolves(account, distinct, lostRaces, r, t)
    {
      hide Represents, Answer, After, Allocates;
      var am, dm: Option<int> := None, None;
      if account != "" {
        am := db.FindByAccountID(account);
      }
      if distinct != "" {
        dm := db.FindByDistinctID(distinct);
      }
      if account != "" && distinct == "" {
        if am.Some? {
          KnownLogin(db.docs, db.counter, t, account, distinct, am.value, None);
          CacheMapping(am.value, db.docs[am.value]);
          return am;
        }
        CreateAccount(db.docs, db.counter, t, account, distinct, None);
        r := AtomicCreateForAccountID(account, lostRaces);
        return;
      }
      if account == "" && distinct != "" {
        if dm.Some? {
          KnownVisitor(db.docs, db.counter, t, distinct, dm.value);
          CacheMapping(dm.value, db.docs[dm.value]);
          return dm;
        }
        CreateDistinct(db.docs, db.counter, t, distinct);
        r := AtomicCreateForDistinctID(distinct, lostRaces);
        return;
      }
      r := ResolveWithBoth(account, distinct, am, dm, lostRaces, t);
    }

    method ResolveWithBoth(account: string, distinct: string, am: Option<int>, dm: Option<int>, lostRaces: nat,
                           ghost t: Directory)
      returns (r: Option<int>)
      requires Valid() && Represents(db.docs, db.counter, t)
      requires account != "" && distinct != ""
      requires FindsAccount(db.docs, account, am) && FindsDistinct(db.docs, distinct, dm)
      modifies this, db
      ensures Resolves(account, distinct, lostRaces, r, t)
    {
      hide Represents, Answer, After, Allocates;
      match (am, dm) {
        case (None, None) =>
          CreateBoth(db.docs, db.counter, t, account, distinct);
          r := AtomicCreateForBoth(account, distinct, lostRaces);
        case (Some(a), None) =>
          BindVisitor(db.docs, db.counter, t, account, distinct, a);
          AtomicBindDistinctToAccount(a, distinct);
          CacheMapping(a, db.docs[a]);
          distinctCache := distinctCache[distinct := a];
          return am;
        case (None, Some(d)) =>
          if db.docs[d].account == "" {
            BindLogin(db.docs, db.counter, t, account, distinct, d);
            var bound := AtomicBindAccountToDistinct(d, account);
            if bound {
              accountCache := accountCache[account := d];
              return dm;
            }
            assert false;
          }
          CreateAccount(db.docs, db.counter, t, account, distinct, dm);
          r := AtomicCreateForAccountID(account, lostRaces);
        case (Some(a), Some(d)) =>
          KnownLogin(db.docs, db.counter, t, account, distinct, a, dm);
          CacheMapping(a, db.docs[a]);
          CacheMapping(d, db.docs[d]);
          return am;
      }
    }
  }

  /** The answers of the directory to a sequence of calls. */
  ghost function Answers(t: Directory, calls: seq<Request>): seq<Option<int>> {
    if calls == [] then []
    else
      var n := |calls| - 1;
      var u, r := RunSpec(t, calls[..n]), calls[n];
      Answers(t, calls[..n]) + [if Refused(u, r) then None else Some(Answer(u, r.account, r.distinct))]
  }

  /** Any number of pods with separate caches, starting from an empty collection, run any sequence of
      calls: every answer and every issued id is the directory's, whichever pod took the call. */
  method RunCalls(db: Database, pods: seq<IdentityResolver>, calls: seq<Request>) returns (answers: seq<Option<int>>)
    requires db.docs == map[] && db.counter == 0
    requires forall p :: p in pods ==> p.db == db && p.accountCache == map[] && p.distinctCache == map[]
    requires forall r :: r in calls ==> r.pod < |pods| && (r.account != "" || r.distinct != "")
    modifies db, pods
    ensures answers == Answers(EMPTY, calls)
    ensures Represents(db.docs, db.counter, RunSpec(EMPTY, calls))
  {
    hide Represents, Answer, Allocates, After, DocsGrow;
    answers := [];
    assert calls[..0] == [];
    NothingRepresented();
    for i := 0 to |calls|
      invariant answers == Answers(EMPTY, calls[..i])
      invariant Represents(db.docs, db.counter, RunSpec(EMPTY, calls[..i]))
      invariant forall p :: p in pods ==> p.db == db && p.Valid()
    {
      var call := calls[i];
      ghost var t := RunSpec(EMPTY, calls[..i]);
      assert calls[..i + 1][..i] == calls[..i];
      var pod := pods[call.pod];
      label before:
      var answer := pod.Resolve(call.account, call.distinct, call.lostRaces, t);
      forall p | p in pods ensures p.Valid() {
        if p != pod {
          CachesStayValid@before(p);
        }
      }
      answers := answers + [answer];
    }
    assert calls[..|calls|] == calls;
  }

  lemma NothingRepresented()
    ensures Represents(map[], 0, EMPTY)
  {
  }

  // Another pod's cached entries stay true while the collection grows.
  twostate lemma CachesStayValid(p: IdentityResolver)
    requires old(p.Valid()) && unchanged(p)
    requires p.db.Valid() && DocsGrow(old(p.db.docs), p.db.docs)
    ensures p.Valid()
  {
    forall d | d in p.distinctCache
      ensures p.distinctCache[d] in p.db.docs && d in p.db.docs[p.distinctCache[d]].distincts
    {
      var id := p.distinctCache[d];
      assert Extends(old(p.db.docs)[id], p.db.docs[id]);
      var i :| 0 <= i < |old(p.db.docs)[id].distincts| && old(p.db.docs)[id].distincts[i] == d;
      assert p.db.docs[id].distincts[i] == d;
    }
  }

  ghost predicate DocsGrow(docs: Docs, docs': Docs) {
    docs.Keys <= docs'.Keys && forall id :: id in docs ==> Extends(docs[id], docs'[id])
  }

  // --- The collection against the directory -----------------------------------------

  ghost predicate Sound(docs: Docs, counter: int) {
    && counter >= 0
    && UniqueAccounts(docs)
    && (forall id :: id in docs ==> 1 <= id <= counter && "" !in docs[id].distincts)
  }

  /** The collection holds exactly the directory's bindings, and the counter its last id. */
  ghost predicate Represents(docs: Docs, counter: int, t: Directory) {
    Sound(docs, counter) && counter == t.last && AccountsMatch(docs, t) && DistinctsMatch(docs, t)
  }

  ghost predicate AccountsMatch(docs: Docs, t: Directory) {
    && (forall id :: id in docs && docs[id].account != "" ==>
          docs[id].account in t.accounts && t.accounts[docs[id].account] == id)
    && (forall a :: a in t.accounts ==> a != "" && Holds(docs, a, t.accounts[a]))
  }

  ghost predicate DistinctsMatch(docs: Docs, t: Directory) {
    && (forall id, d :: id in docs && d in docs[id].distincts ==> d in t.distincts && t.distincts[d] == id)
    && (forall d :: d in t.distincts ==> t.distincts[d] in docs && d in docs[t.distincts[d]].distincts)
  }

  /** Each distinct id lies in at most one mapping. */
  lemma OneMappingPerDistinct(docs: Docs, counter: int, t: Directory, i: int, j: int, d: string)
    requires Represents(docs, counter, t)
    requires i in docs && j in docs && d in docs[i].distincts && d in docs[j].distincts
    ensures i == j
  {
    assert t.distincts[d] == i;
  }

  lemma AccountLookup(docs: Docs, t: Directory, account: string)
    requires AccountsMatch(docs, t) && account != ""
    ensures AccountTaken(docs, account) <==> account in t.accounts
  {
    if account in t.accounts {
      assert Holds(docs, account, t.accounts[account]);
    }
  }

  lemma DistinctLookup(docs: Docs, t: Directory, distinct: string)
    requires DistinctsMatch(docs, t)
    ensures DistinctTaken(docs, distinct) <==> distinct in t.distincts
  {
    if distinct in t.distincts {
      var id := t.distincts[distinct];
      assert id in docs && distinct in docs[id].distincts;
    } else if DistinctTaken(docs, distinct) {
      var id :| id in docs && distinct in docs[id].distincts;
      assert false;
    }
  }

  lemma BoundUser(docs: Docs, t: Directory, id: int)
    requires AccountsMatch(docs, t) && id in docs
    ensures HasAccount(t, id) <==> docs[id].account != ""
  {
    if HasAccount(t, id) {
      var a :| a in t.accounts && t.accounts[a] == id;
      assert Holds(docs, a, t.accounts[a]);
    }
  }

  lemma NoAllocation(t: Directory, account: string, distinct: string)
    requires After(t, account, distinct) == t
    ensures !Allocates(t, account, distinct)
  {
  }

  // A known account answers; its distinct id, if any, is known too.
  lemma KnownLogin(docs: Docs, counter: int, t: Directory, account: string, distinct: string, a: int, dm: Option<int>)
    requires Represents(docs, counter, t) && account != "" && Holds(docs, account, a)
    requires distinct != "" ==> dm.Some? && FindsDistinct(docs, distinct, dm)
    ensures Answer(t, account, distinct) == a && After(t, account, distinct) == t && !Allocates(t, account, distinct)
  {
    AccountLookup(docs, t, account);
    DistinctLookup(docs, t, distinct);
  }

  lemma KnownVisitor(docs: Docs, counter: int, t: Directory, distinct: string, d: int)
    requires Represents(docs, counter, t) && distinct != "" && FindsDistinct(docs, distinct, Some(d))
    ensures Answer(t, "", distinct) == d && After(t, "", distinct) == t && !Allocates(t, "", distinct)
  {
  }

  // Adding a mapping with ids the directory did not know, and binding them in the directory.
  lemma NewMappingMatches(docs: Docs, t: Directory, id: int, m: Mapping, t': Directory)
    requires AccountsMatch(docs, t) && DistinctsMatch(docs, t) && id !in docs
    requires m.account != "" ==> m.account !in t.accounts
    requires t'.accounts == if m.account == "" then t.accounts else t.accounts[m.account := id]
    requires |m.distincts| <= 1 && (|m.distincts| == 1 ==> m.distincts[0] !in t.distincts)
    requires t'.distincts == if m.distincts == [] then t.distincts else t.distincts[m.distincts[0] := id]
    ensures AccountsMatch(docs[id := m], t') && DistinctsMatch(docs[id := m], t')
  {
    var docs' := docs[id := m];
    assert AccountsMatch(docs', t');
    forall i, d | i in docs' && d in docs'[i].distincts ensures d in t'.distincts && t'.distincts[d] == i {
      if i != id { assert d in docs[i].distincts; }
    }
    forall d | d in t'.distincts ensures t'.distincts[d] in docs' && d in docs'[t'.distincts[d]].distincts {
      if d in t.distincts { assert d in docs[t.distincts[d]].distincts; }
    }
  }

  // A new mapping for the account alone: it has no distinct id, or one that is another account's.
  lemma CreateAccount(docs: Docs, counter: int, t: Directory, account: string, distinct: string, dm: Option<int>)
    requires Represents(docs, counter, t) && account != "" && !AccountTaken(docs, account)
    requires distinct != "" ==> dm.Some? && FindsDistinct(docs, distinct, dm) && docs[dm.value].account != ""
    ensures var docs' := docs[counter + 1 := Mapping(account, [])];
            Represents(docs', counter + 1, After(t, account, distinct)) && DocsGrow(docs, docs')
    ensures Allocates(t, account, distinct) && Answer(t, account, distinct) == counter + 1
  {
    AccountLookup(docs, t, account);
    if distinct != "" {
      DistinctLookup(docs, t, distinct);
      BoundUser(docs, t, dm.value);
    }
    var docs' := docs[counter + 1 := Mapping(account, [])];
    var t' := After(t, account, distinct);
    NewMappingMatches(docs, t, counter + 1, docs'[counter + 1], t');
    hide AccountsMatch, DistinctsMatch;
  }

  lemma CreateDistinct(docs: Docs, counter: int, t: Directory, distinct: string)
    requires Represents(docs, counter, t) && distinct != "" && !DistinctTaken(docs, distinct)
    ensures var docs' := docs[counter + 1 := Mapping("", [distinct])];
            Represents(docs', counter + 1, After(t, "", distinct)) && DocsGrow(docs, docs')
    ensures Allocates(t, "", distinct) && Answer(t, "", distinct) == counter + 1
  {
    DistinctLookup(docs, t, distinct);
    var docs' := docs[counter + 1 := Mapping("", [distinct])];
    var t' := After(t, "", distinct);
    NewMappingMatches(docs, t, counter + 1, docs'[counter + 1], t');
    hide AccountsMatch, DistinctsMatch;
  }

  lemma CreateBoth(docs: Docs, counter: int, t: Directory, account: string, distinct: string)
    requires Represents(docs, counter, t) && account != "" && distinct != ""
    requires !AccountTaken(docs, account) && !DistinctTaken(docs, distinct)
    ensures var docs' := docs[counter + 1 := Mapping(account, [distinct])];
            Represents(docs', counter + 1, After(t, account, distinct)) && DocsGrow(docs, docs')
    ensures Allocates(t, account, distinct) && Answer(t, account, distinct) == counter + 1
  {
    AccountLookup(docs, t, account);
    DistinctLookup(docs, t, distinct);
    var docs' := docs[counter + 1 := Mapping(account, [distinct])];
    var t' := After(t, account, distinct);
    NewMappingMatches(docs, t, counter + 1, docs'[counter + 1], t');
    hide AccountsMatch, DistinctsMatch;
  }

  lemma BindVisitor(docs: Docs, counter: int, t: Directory, account: string, distinct: string, a: int)
    requires Represents(docs, counter, t) && account != "" && distinct != ""
    requires Holds(docs, account, a) && !DistinctTaken(docs, distinct)
    ensures var docs' := BindDistinct(docs, a, distinct);
            Represents(docs', counter, After(t, account, distinct)) && DocsGrow(docs, docs')
    ensures !Allocates(t, account, distinct) && Answer(t, account, distinct) == a
  {
    AccountLookup(docs, t, account);
    DistinctLookup(docs, t, distinct);
    var docs' := BindDistinct(docs, a, distinct);
    var t' := After(t, account, distinct);
    assert AccountsMatch(docs', t');
    assert DistinctsMatch(docs', t');
    hide AccountsMatch, DistinctsMatch;
  }

  lemma BindLogin(docs: Docs, counter: int, t: Directory, account: string, distinct: string, d: int)
    requires Represents(docs, counter, t) && account != "" && distinct != ""
    requires FindsDistinct(docs, distinct, Some(d)) && docs[d].account == "" && !AccountTaken(docs, account)
    ensures var docs' := BindAccount(docs, d, account);
            Represents(docs', counter, After(t, account, distinct)) && DocsGrow(docs, docs')
    ensures !Allocates(t, account, distinct) && Answer(t, account, distinct) == d
  {
    AccountLookup(docs, t, account);
    DistinctLookup(docs, t, distinct);
    BoundUser(docs, t, d);
    var docs' := BindAccount(docs, d, account);
    var t' := After(t, account, distinct);
    assert AccountsMatch(docs', t');
    assert DistinctsMatch(docs', t');
    hide AccountsMatch, DistinctsMatch;
  }
}
