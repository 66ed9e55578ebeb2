/** Why re-sending a whole batch is safe for guarded writes (internal/dao/store/writemodel.go,
    store.go): running such a batch twice leaves what running it once leaves. */
module BulkRetry {
  import opened Wrappers
  import opened Documents
  import opened WriteModels

  /** A write that only takes effect while the stored document is not newer. */
  predicate Guarded(m: WriteModel) {
    !m.DeleteOne? && m.filter.guard.Some?
  }

  /** A write that keeps its own key. */
  predicate KeepsKey(f: Filter, d: Doc) {
    f.field in d && d[f.field] == f.key
  }

  /** The writes whose retry is transparent: guarded overlays and replacements that stamp the
      document with their own timestamp, inserts if absent, and deletes. */
  predicate Retryable(m: WriteModel) {
    match m
    case DeleteOne(_) => true
    case ReplaceOne(f, r) => KeepsKey(f, r) && Stamped(r) && f.guard == Some(Num(Ts(r)))
    case UpdateOne(f, u) =>
      if f.guard.Some? then
        && u == NO_UPDATE.(sets := u.sets, unsets := u.unsets) && u.sets.Keys !! u.unsets
        && KeepsKey(f, u.sets) && Stamped(u.sets) && f.guard == Some(Num(Ts(u.sets)))
      else u == NO_UPDATE.(setsOnInsert := u.setsOnInsert)
  }

  /** The user operations and event operations whose models are of that kind. */
  lemma UserModelsRetryable(typ: string, userID: int, doc: Doc)
    requires UserRecord(userID, doc)
    requires typ !in {"user_setOnce", "user_add", "user_append", "user_uniq_append"}
    ensures Retryable(UserModel(typ, userID, doc))
  {
    UserModelConflictFree(typ, userID, doc);
  }

  lemma EventModelsRetryable(typ: string, uuid: string, doc: Doc)
    requires Stamped(doc) && "#uuid" in doc && doc["#uuid"] == Str(uuid)
    ensures Retryable(EventModel(typ, uuid, doc))
  {
  }

  // --- Guarded writes as field assignments -------------------------------------------------

  datatype Effect = Effect(clear: bool, sets: Doc, unsets: set<string>)

  const NO_EFFECT := Effect(false, map[], {})

  function Do(e: Effect, d: Doc): Doc {
    ((if e.clear then map[] else d) + e.sets) - e.unsets
  }

  function EffectOf(m: WriteModel): Effect
    requires Retryable(m) && Guarded(m)
  {
    match m
    case UpdateOne(_, u) => Effect(false, u.sets, u.unsets)
    case ReplaceOne(_, r) => Effect(true, r, {})
  }

  /** First e, then e'. */
  function Then(e: Effect, e': Effect): Effect {
    if e'.clear then e'
    else Effect(e.clear, (e.sets - e'.unsets) + e'.sets, (e.unsets - e'.sets.Keys) + e'.unsets)
  }

  predicate Proper(e: Effect) {
    e.sets.Keys !! e.unsets
  }

  lemma ThenDoes(e: Effect, e': Effect, d: Doc)
    requires Proper(e) && Proper(e')
    ensures Proper(Then(e, e')) && Do(Then(e, e'), d) == Do(e', Do(e, d))
  {
  }

  /** Assignments made twice are assignments made once. */
  lemma DoTwice(e: Effect, d: Doc)
    requires Proper(e)
    ensures Do(e, Do(e, d)) == Do(e, d)
  {
  }

  /** What one retryable write does to the document with its key. */
  lemma StepMeans(cur: Option<Doc>, m: WriteModel)
    requires Retryable(m)
    ensures WriteDoc(cur, m).doc ==
            if m.DeleteOne? then None
            else if Guarded(m) then
              (if cur.Some? && !GuardAdmits(cur.value, m.filter.guard) then cur
               else Some(Do(EffectOf(m), if cur.Some? then cur.value else map[])))
            else if cur.Some? then cur else Some(Seed(m.filter) + m.update.setsOnInsert)
    ensures Guarded(m) ==> Proper(EffectOf(m))
  {
    if m.UpdateOne? {
      var from := if cur.Some? then cur.value else Seed(m.filter);
      if Guarded(m) {
        PlainUpdate(from, m.update, cur.None?);
        var empty: Doc := map[];
        assert Seed(m.filter) + m.update.sets == m.update.sets == empty + m.update.sets;
      } else {
        InsertOnlyUpdate(from, m.update, cur.None?);
      }
    } else if m.ReplaceOne? {
      var empty: Doc := map[];
      assert (empty + m.replacement) - {} == m.replacement;
    }
  }

  lemma EffectStamps(m: WriteModel, d: Doc)
    requires Retryable(m) && Guarded(m)
    ensures m.filter.guard.value.Num? && Field(Do(EffectOf(m), d), "_ts") == m.filter.guard
  {
  }

  // --- Running a batch at one key -------------------------------------------------------------

  predicate AllRetryable(ms: seq<WriteModel>) {
    forall m :: m in ms ==> Retryable(m)
  }

  predicate NoDelete(k: Value, ms: seq<WriteModel>) {
    forall m :: m in ms && m.filter.key == k ==> !m.DeleteOne?
  }

  /** The write belongs to this key and is guarded with this timestamp. */
  predicate Stamps(m: WriteModel, k: Value, ts: int) {
    m.filter.key == k && Guarded(m) && m.filter.guard == Some(Num(ts))
  }

  /** The combined assignments of the writes that carry the timestamp ts. */
  function Top(k: Value, ts: int, ms: seq<WriteModel>): (e: Effect)
    requires AllRetryable(ms)
    ensures Proper(e)
    decreases |ms|
  {
    if ms == [] then NO_EFFECT
    else
      var e := Top(k, ts, ms[1..]);
      assert Retryable(ms[0]);
      if Stamps(ms[0], k, ts) then
        ThenDoes(EffectOf(ms[0]), e, map[]);
        Then(EffectOf(ms[0]), e)
      else e
  }

  predicate NoneAbove(k: Value, ts: int, ms: seq<WriteModel>) {
    forall m :: m in ms && m.filter.key == k && Guarded(m) ==>
      m.filter.guard.value.Num? && m.filter.guard.value.n <= ts
  }

  predicate AllRefused(k: Value, d: Doc, ms: seq<WriteModel>) {
    forall m :: m in ms && m.filter.key == k && Guarded(m) ==> !GuardAdmits(d, m.filter.guard)
  }

  function StepAt(k: Value, cur: Option<Doc>, m: WriteModel): Option<Doc> {
    if m.filter.key == k then WriteDoc(cur, m).doc else cur
  }

  /** From a document already at the batch's top timestamp, exactly the writes with that timestamp apply. */
  lemma {:induction false} RunFromTop(k: Value, ts: int, d: Doc, ms: seq<WriteModel>)
    requires AllRetryable(ms) && NoDelete(k, ms) && NoneAbove(k, ts, ms)
    requires Field(d, "_ts") == Some(Num(ts))
    ensures RunAt(k, Some(d), ms) == Some(Do(Top(k, ts, ms), d))
    decreases |ms|
  {
    if ms == [] {
      assert Do(NO_EFFECT, d) == d;
    } else {
      var m, rest := ms[0], ms[1..];
      assert Retryable(m);
      StepMeans(Some(d), m);
      var d' := StepAt(k, Some(d), m).value;
      if Stamps(m, k, ts) {
        EffectStamps(m, d);
        ThenDoes(EffectOf(m), Top(k, ts, rest), d);
      }
      hide WriteDoc;
      RunFromTop(k, ts, d', rest);
    }
  }

  lemma {:induction false} RunRefused(k: Value, d: Doc, ms: seq<WriteModel>)
    requires AllRetryable(ms) && NoDelete(k, ms) && AllRefused(k, d, ms)
    ensures RunAt(k, Some(d), ms) == Some(d)
    decreases |ms|
  {
    if ms != [] {
      assert Retryable(ms[0]);
      StepMeans(Some(d), ms[0]);
      hide WriteDoc;
      RunRefused(k, d, ms[1..]);
    }
  }

  /** Where a run without deletes ends: at d itself if every write is refused, else at the batch's top
      timestamp, with that timestamp's assignments made last. */
  lemma {:induction false} RunEnds(k: Value, d: Doc, ms: seq<WriteModel>) returns (refused: bool, ts: int,
                                   before: Doc)
    requires AllRetryable(ms) && NoDelete(k, ms)
    ensures refused ==> RunAt(k, Some(d), ms) == Some(d) && AllRefused(k, d, ms)
    ensures !refused ==>
              && RunAt(k, Some(d), ms) == Some(Do(Top(k, ts, ms), before))
              && Field(Do(Top(k, ts, ms), before), "_ts") == Some(Num(ts))
              && NoneAbove(k, ts, ms)
              && GuardAdmits(d, Some(Num(ts)))
    decreases |ms|
  {
    hide WriteDoc, GuardAdmits, Do, Then, RunAt, Top, EffectOf, Retryable;
    refused, ts, before := true, 0, d;
    if ms == [] {
      assert RunAt(k, Some(d), ms) == Some(d) by { RunAtNone(k, Some(d)); }
    } else {
      var m, rest := ms[0], ms[1..];
      assert Retryable(m);
      StepMeans(Some(d), m);
      RunAtStep(k, Some(d), ms);
      var d' := StepAt(k, Some(d), m).value;
      refused, ts, before := RunEnds(k, d', rest);
      if m.filter.key == k && Guarded(m) {
        EffectStamps(m, d);
        var t := m.filter.guard.value.n;
        if GuardAdmits(d, m.filter.guard) {
          StampAdmits(d', t);
          if refused || ts == t {
            if refused {
              RefusedBounds(k, t, d', rest);
            }
            refused, ts, before := false, t, d;
            RunFromTop(k, t, d', rest);
            TopStep(k, t, ms);
            ThenDoes(EffectOf(m), Top(k, t, rest), d);
          } else {
            LaterAdmitsMore(d, t, ts);
            TopStep(k, ts, ms);
          }
        } else if !refused {
          if ts <= t {
            LaterAdmitsMore(d, ts, t);
          }
          TopStep(k, ts, ms);
        }
      } else if !refused {
        TopStep(k, ts, ms);
      }
    }
  }

  lemma RunAtNone(k: Value, cur: Option<Doc>)
    ensures RunAt(k, cur, []) == cur
  {
  }

  lemma RunAtStep(k: Value, cur: Option<Doc>, ms: seq<WriteModel>)
    requires ms != []
    ensures RunAt(k, cur, ms) == RunAt(k, StepAt(k, cur, ms[0]), ms[1..])
  {
  }

  lemma TopStep(k: Value, ts: int, ms: seq<WriteModel>)
    requires ms != [] && AllRetryable(ms)
    ensures Retryable(ms[0]) && AllRetryable(ms[1..])
    ensures Top(k, ts, ms) ==
            if Stamps(ms[0], k, ts) then Then(EffectOf(ms[0]), Top(k, ts, ms[1..])) else Top(k, ts, ms[1..])
  {
    hide Retryable, Then, EffectOf;
    assert ms[0] in ms;
  }

  lemma StampAdmits(d: Doc, t: int)
    requires Field(d, "_ts") == Some(Num(t))
    ensures forall u :: GuardAdmits(d, Some(Num(u))) <==> t <= u
  {
  }

  lemma RefusedBounds(k: Value, t: int, d: Doc, ms: seq<WriteModel>)
    requires AllRetryable(ms) && AllRefused(k, d, ms) && Field(d, "_ts") == Some(Num(t))
    ensures NoneAbove(k, t, ms)
  {
    hide GuardAdmits;
    StampAdmits(d, t);
    forall m | m in ms && m.filter.key == k && Guarded(m)
      ensures m.filter.guard.value.Num? && m.filter.guard.value.n <= t
    {
      assert Retryable(m);
    }
  }

  /** Running a batch without deletes again changes nothing. */
  lemma RunTwiceFrom(k: Value, d: Doc, ms: seq<WriteModel>)
    requires AllRetryable(ms) && NoDelete(k, ms)
    ensures RunAt(k, RunAt(k, Some(d), ms), ms) == RunAt(k, Some(d), ms)
  {
    var refused, ts, before := RunEnds(k, d, ms);
    if !refused {
      var e := Top(k, ts, ms);
      RunFromTop(k, ts, Do(e, before), ms);
      DoTwice(e, before);
    }
  }

  lemma {:induction false} StaysPresent(k: Value, d: Doc, ms: seq<WriteModel>)
    requires AllRetryable(ms) && NoDelete(k, ms)
    ensures RunAt(k, Some(d), ms).Some?
  {
    var _, _, _ := RunEnds(k, d, ms);
  }

  /** Running a retryable batch again changes nothing, from any document or none. */
  lemma {:induction false} RunTwice(k: Value, cur: Option<Doc>, ms: seq<WriteModel>)
    requires AllRetryable(ms)
    ensures RunAt(k, RunAt(k, cur, ms), ms) == RunAt(k, cur, ms)
    decreases |ms|
  {
    if ms != [] {
      var m, rest := ms[0], ms[1..];
      assert Retryable(m);
      StepMeans(cur, m);
      if !NoDelete(k, ms) {
        // After the last delete of this key nothing of the start is left.
        DeleteForgets(k, cur, RunAt(k, cur, ms), ms);
      } else if cur.Some? {
        RunTwiceFrom(k, cur.value, ms);
      } else if m.filter.key != k {
        RunTwice(k, cur, rest);
      } else if Guarded(m) {
        StepMeans(Some(map[]), m);
        RunTwiceFrom(k, map[], ms);
      } else {
        var d := WriteDoc(cur, m).doc.value;
        RunTwiceFrom(k, d, rest);
        StaysPresent(k, d, rest);
        StepMeans(RunAt(k, Some(d), rest), m);
      }
    }
  }

  lemma {:induction false} DeleteForgets(k: Value, cur: Option<Doc>, cur': Option<Doc>, ms: seq<WriteModel>)
    requires !NoDelete(k, ms)
    ensures RunAt(k, cur, ms) == RunAt(k, cur', ms)
    decreases |ms|
  {
    var m, rest := ms[0], ms[1..];
    if NoDelete(k, rest) {
      assert m.filter.key == k && m.DeleteOne?;
    } else {
      DeleteForgets(k, StepAt(k, cur, m), StepAt(k, cur', m), rest);
    }
  }

  // --- One key's part of a batch ------------------------------------------------------------

  /** The writes of a batch that belong to one key, in order. */
  function OfKey(k: Value, ms: seq<WriteModel>): (r: seq<WriteModel>)
    ensures forall m :: m in r <==> m in ms && m.filter.key == k
    decreases |ms|
  {
    if ms == [] then [] else (if ms[0].filter.key == k then [ms[0]] else []) + OfKey(k, ms[1..])
  }

  lemma {:induction false} RunAtOfKey(k: Value, cur: Option<Doc>, ms: seq<WriteModel>)
    ensures RunAt(k, cur, ms) == RunAt(k, cur, OfKey(k, ms))
    decreases |ms|
  {
    hide WriteDoc;
    if ms != [] {
      RunAtOfKey(k, StepAt(k, cur, ms[0]), ms[1..]);
      if ms[0].filter.key == k {
        assert ([ms[0]] + OfKey(k, ms[1..]))[1..] == OfKey(k, ms[1..]);
      } else {
        assert [] + OfKey(k, ms[1..]) == OfKey(k, ms[1..]);
      }
    }
  }

  lemma {:induction false} OfKeySplit(k: Value, a: seq<WriteModel>, b: seq<WriteModel>)
    ensures OfKey(k, a + b) == OfKey(k, a) + OfKey(k, b)
    decreases |a|
  {
    if a == [] {
      assert a + b == b;
    } else {
      assert (a + b)[1..] == a[1..] + b;
      OfKeySplit(k, a[1..], b);
    }
  }

  /** Batches with the same writes in the same order at every key do the same. */
  lemma SameAtEveryKey(c: Coll, ms: seq<WriteModel>, ms': seq<WriteModel>)
    requires forall k :: OfKey(k, ms) == OfKey(k, ms')
    ensures WriteAll(c, ms) == WriteAll(c, ms')
  {
    hide WriteAll, RunAt, OfKey;
    forall k ensures At(WriteAll(c, ms), k) == At(WriteAll(c, ms'), k) {
      WriteAllAt(c, ms, k);
      WriteAllAt(c, ms', k);
      RunAtOfKey(k, At(c, k), ms);
      RunAtOfKey(k, At(c, k), ms');
    }
    SameEverywhere(WriteAll(c, ms), WriteAll(c, ms'));
  }

  // --- Whole collections and failed attempts ------------------------------------------------

  /** What a failed attempt applied: at every key, the first of the batch's writes of that key. */
  ghost predicate KeyPrefix(applied: seq<WriteModel>, ms: seq<WriteModel>) {
    forall k :: OfKey(k, applied) <= OfKey(k, ms)
  }

  ghost predicate KeyPrefixes(attempts: seq<seq<WriteModel>>, ms: seq<WriteModel>) {
    forall i :: 0 <= i < |attempts| ==> KeyPrefix(attempts[i], ms)
  }

  /** A prefix of the whole batch is one. */
  lemma PrefixIsKeyPrefix(ms: seq<WriteModel>, n: nat)
    requires n <= |ms|
    ensures KeyPrefix(ms[..n], ms)
  {
    forall k ensures OfKey(k, ms[..n]) <= OfKey(k, ms) {
      OfKeySplit(k, ms[..n], ms[n..]);
      assert ms == ms[..n] + ms[n..];
    }
  }

  /** Failed attempts, one after the other. */
  function Attempts(c: Coll, attempts: seq<seq<WriteModel>>): Coll
    decreases |attempts|
  {
    if attempts == [] then c else Attempts(WriteAll(c, attempts[0]), attempts[1..])
  }

  /** One failed attempt before a full one leaves no trace. */
  lemma PrefixThenAll(c: Coll, ms: seq<WriteModel>, applied: seq<WriteModel>)
    requires AllRetryable(ms) && KeyPrefix(applied, ms)
    ensures WriteAll(WriteAll(c, applied), ms) == WriteAll(c, ms)
  {
    var c' := WriteAll(c, applied);
    hide WriteAll, RunAt, AllRetryable;
    forall k ensures At(WriteAll(c', ms), k) == At(WriteAll(c, ms), k) {
      WriteAllAt(c, applied, k);
      WriteAllAt(c', ms, k);
      WriteAllAt(c, ms, k);
      RunAtOfKey(k, At(c, k), applied);
      RunAtOfKey(k, At(c', k), ms);
      RunAtOfKey(k, At(c, k), ms);
      OfKeyRetryable(k, ms);
      PrefixThenAllAt(k, At(c, k), OfKey(k, applied), OfKey(k, ms));
    }
    SameEverywhere(WriteAll(c', ms), WriteAll(c, ms));
  }

  lemma OfKeyRetryable(k: Value, ms: seq<WriteModel>)
    requires AllRetryable(ms)
    ensures AllRetryable(OfKey(k, ms))
  {
    hide Retryable;
  }

  lemma PrefixThenAllAt(k: Value, cur: Option<Doc>, head: seq<WriteModel>, ms: seq<WriteModel>)
    requires AllRetryable(ms) && head <= ms
    ensures RunAt(k, RunAt(k, cur, head), ms) == RunAt(k, cur, ms)
  {
    hide RunAt, Retryable;
    var tail := ms[|head|..];
    assert ms == head + tail;
    RunAtSplit(k, RunAt(k, cur, head), head, tail);
    RunAtSplit(k, cur, head, tail);
    assert AllRetryable(head);
    RunTwice(k, cur, head);
  }

  /** Bulk retry is transparent: any number of failed attempts, each having applied some prefix of the batch at
      every key, and then a full one leave what a single clean attempt leaves. */
  lemma {:induction false} RetryTransparent(c: Coll, ms: seq<WriteModel>, attempts: seq<seq<WriteModel>>)
    requires AllRetryable(ms) && KeyPrefixes(attempts, ms)
    ensures WriteAll(Attempts(c, attempts), ms) == WriteAll(c, ms)
    decreases |attempts|
  {
    hide WriteAll, KeyPrefix, AllRetryable;
    if attempts != [] {
      RetryTransparent(WriteAll(c, attempts[0]), ms, attempts[1..]);
      PrefixThenAll(c, ms, attempts[0]);
    }
  }

  // --- An attempt with a gap ------------------------------------------------------------------

  /** A user_set of these fields with this timestamp. */
  predicate Overlays(m: WriteModel, f: Filter, sets: Doc, ts: int) {
    && m == UpdateOne(f.(guard := Some(Num(ts))), NO_UPDATE.(sets := sets))
    && KeepsKey(f, sets) && Stamped(sets) && Ts(sets) == ts
  }

  predicate Admits(cur: Option<Doc>, ts: int) {
    cur.Some? ==> GuardAdmits(cur.value, Some(Num(ts)))
  }

  function BaseOf(cur: Option<Doc>): Doc {
    if cur.Some? then cur.value else map[]
  }

  lemma OverlayStep(cur: Option<Doc>, m: WriteModel, f: Filter, sets: Doc, ts: int)
    requires Overlays(m, f, sets, ts)
    ensures Retryable(m) && m.filter.key == f.key
    ensures WriteDoc(cur, m).doc == if Admits(cur, ts) then Some(BaseOf(cur) + sets) else cur
    ensures forall d: Doc, t :: Admits(Some(d + sets), t) <==> ts <= t
  {
    StepMeans(cur, m);
    hide WriteDoc;
    var d := BaseOf(cur);
    assert (d + sets) - {} == d + sets;
  }

  lemma RunTwoAt(k: Value, cur: Option<Doc>, m1: WriteModel, m2: WriteModel)
    requires m1.filter.key == k && m2.filter.key == k
    ensures RunAt(k, cur, [m2]) == WriteDoc(cur, m2).doc
    ensures RunAt(k, cur, [m1, m2]) == WriteDoc(WriteDoc(cur, m1).doc, m2).doc
  {
    hide WriteDoc;
    var ms := [m1, m2];
    assert ms[1..] == [m2] && [m2][1..] == [];
    assert RunAt(k, cur, ms) == RunAt(k, WriteDoc(cur, m1).doc, [m2]);
  }

  /** Each field that only the older write sets already has the value it sets. */
  predicate AlreadyThere(base: Doc, older: Doc, newer: Doc) {
    forall f :: f in older && f !in newer ==> f in base && base[f] == older[f]
  }

  lemma HiddenIff(base: Doc, older: Doc, newer: Doc)
    ensures (base + older) + newer == base + newer <==> AlreadyThere(base, older, newer)
  {
    var both, one := (base + older) + newer, base + newer;
    if AlreadyThere(base, older, newer) {
      assert both.Keys == one.Keys;
    } else {
      var f :| f in older && f !in newer && !(f in base && base[f] == older[f]);
      assert f in both && both[f] == older[f];
    }
  }

  /** Whether applying only the second of two overlays, and then retrying both, ends as a clean run does: if the
      timestamps are equal, if the older write is refused anyway, or if nothing only it sets is new. */
  predicate GapHarmless(cur: Option<Doc>, t1: int, t2: int, sets1: Doc, sets2: Doc) {
    t1 == t2
    || !Admits(cur, if t1 < t2 then t1 else t2)
    || (if t1 < t2 then AlreadyThere(BaseOf(cur), sets1, sets2) else AlreadyThere(BaseOf(cur), sets2, sets1))
  }

  lemma GapAt(f: Filter, cur: Option<Doc>, m1: WriteModel, m2: WriteModel, t1: int, t2: int, sets1: Doc, sets2: Doc)
    requires Overlays(m1, f, sets1, t1) && Overlays(m2, f, sets2, t2)
    ensures RunAt(f.key, RunAt(f.key, cur, [m2]), [m1, m2]) == RunAt(f.key, cur, [m1, m2])
            <==> GapHarmless(cur, t1, t2, sets1, sets2)
  {
    hide WriteDoc, RunAt, Overlays, GuardAdmits, Retryable, AlreadyThere;
    OverlayStep(cur, m1, f, sets1, t1);
    OverlayStep(cur, m2, f, sets2, t2);
    AdmitsLater(cur, t1, t2);
    AdmitsLater(cur, t2, t1);
    var base, gap := BaseOf(cur), WriteDoc(cur, m2).doc;
    var clean := WriteDoc(cur, m1).doc;
    OverlayStep(clean, m2, f, sets2, t2);
    OverlayStep(gap, m1, f, sets1, t1);
    OverlayStep(WriteDoc(gap, m1).doc, m2, f, sets2, t2);
    RunTwoAt(f.key, cur, m1, m2);
    RunTwoAt(f.key, gap, m1, m2);
    HiddenIff(base, sets1, sets2);
    HiddenIff(base, sets2, sets1);
    assert (base + sets2) + sets2 == base + sets2;
    assert ((base + sets2) + sets1) + sets2 == (base + sets1) + sets2;
  }

  lemma AdmitsLater(cur: Option<Doc>, t: int, u: int)
    ensures t <= u && Admits(cur, t) ==> Admits(cur, u)
  {
    if t <= u && Admits(cur, t) && cur.Some? {
      LaterAdmitsMore(cur.value, t, u);
    }
  }

  /** A failed attempt that applied the second of two overlays of one key but not the first is no prefix.  From
      any collection, the retry ends as a clean run does exactly when the gap is harmless; otherwise a newer write
      has shut out an older one for good, or a stale one that a clean run refuses has stayed. */
  lemma GapIff(c: Coll, f: Filter, m1: WriteModel, m2: WriteModel, t1: int, t2: int, sets1: Doc, sets2: Doc)
    requires Overlays(m1, f, sets1, t1) && Overlays(m2, f, sets2, t2)
    ensures WriteAll(WriteAll(c, [m2]), [m1, m2]) == WriteAll(c, [m1, m2])
            <==> GapHarmless(At(c, f.key), t1, t2, sets1, sets2)
  {
    hide WriteDoc, RunAt, WriteAll, GapHarmless, GuardAdmits;
    var once, gap := WriteAll(c, [m1, m2]), WriteAll(c, [m2]);
    var twice := WriteAll(gap, [m1, m2]);
    forall k ensures At(once, k) == RunAt(k, At(c, k), [m1, m2])
                     && At(twice, k) == RunAt(k, RunAt(k, At(c, k), [m2]), [m1, m2])
    {
      WriteAllAt(c, [m1, m2], k);
      WriteAllAt(c, [m2], k);
      WriteAllAt(gap, [m1, m2], k);
    }
    GapAt(f, At(c, f.key), m1, m2, t1, t2, sets1, sets2);
    if GapHarmless(At(c, f.key), t1, t2, sets1, sets2) {
      forall k ensures At(twice, k) == At(once, k) {
        if k != f.key {
          OtherKeys(k, At(c, k), [m1, m2]);
          OtherKeys(k, At(c, k), [m2]);
        }
      }
      SameEverywhere(twice, once);
    }
  }

  lemma {:induction false} OtherKeys(k: Value, cur: Option<Doc>, ms: seq<WriteModel>)
    requires forall m :: m in ms ==> m.filter.key != k
    ensures RunAt(k, cur, ms) == cur
    decreases |ms|
  {
    hide WriteDoc;
    if ms != [] {
      OtherKeys(k, cur, ms[1..]);
    }
  }

  /** From no document: the retry after the gap loses or keeps something it should not exactly when the timestamps
      differ and the older write sets a field that the newer does not. */
  lemma GapLosesAWrite(f: Filter, m1: WriteModel, m2: WriteModel, t1: int, t2: int, sets1: Doc, sets2: Doc)
    requires Overlays(m1, f, sets1, t1) && Overlays(m2, f, sets2, t2)
    ensures var c: Coll := map[];
            WriteAll(WriteAll(c, [m2]), [m1, m2]) != WriteAll(c, [m1, m2])
            <==> (t1 < t2 && !(sets1.Keys <= sets2.Keys)) || (t1 > t2 && !(sets2.Keys <= sets1.Keys))
  {
    hide WriteAll, Overlays;
    var c: Coll := map[];
    GapIff(c, f, m1, m2, t1, t2, sets1, sets2);
  }
}
