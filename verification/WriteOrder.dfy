/** What the order, the repetition and the age of writes cannot change
    (internal/dao/store/writemodel.go). */
module WriteOrder {
  import opened Wrappers
  import opened Documents
  import opened WriteModels
  import opened BulkRetry

  // --- track_overwrite: the newest replacement wins ----------------------------------------

  predicate AllOverwrites(ms: seq<WriteModel>) {
    forall m :: m in ms ==> m.ReplaceOne? && Retryable(m)
  }

  /** Writes to one event that differ have different timestamps. */
  predicate DistinctStamps(ms: seq<WriteModel>) {
    forall m, m' :: m in ms && m' in ms && m.filter.key == m'.filter.key && m.filter.guard == m'.filter.guard ==>
      m == m'
  }

  predicate IsNewest(top: WriteModel, k: Value, ms: seq<WriteModel>)
    requires AllOverwrites(ms)
  {
    && top in ms && top.filter.key == k
    && forall m :: m in ms && m.filter.key == k ==> m.filter.guard.value.n <= top.filter.guard.value.n
  }

  /** From an absent or older event, any sequence of overwrites ends in the newest replacement. */
  lemma {:induction false} NewestWins(k: Value, cur: Option<Doc>, ms: seq<WriteModel>, top: WriteModel)
    requires AllOverwrites(ms) && DistinctStamps(ms) && IsNewest(top, k, ms)
    requires cur.Some? ==> GuardAdmits(cur.value, top.filter.guard)
    ensures RunAt(k, cur, ms) == Some(top.replacement)
    decreases |ms|
  {
    var m, rest := ms[0], ms[1..];
    assert m in ms && Retryable(m);
    var cur' := StepAt(k, cur, m);
    if top in rest {
      NewestWins(k, cur', rest, top);
    } else {
      assert m == top;
      assert AllRefused(k, top.replacement, rest) by {
        forall o | o in rest && o.filter.key == k ensures !GuardAdmits(top.replacement, o.filter.guard) {
          assert o in ms && o != top;
        }
      }
      RunRefused(k, top.replacement, rest);
    }
  }

  lemma {:induction false} NewestExists(k: Value, ms: seq<WriteModel>) returns (top: WriteModel)
    requires AllOverwrites(ms) && exists m :: m in ms && m.filter.key == k
    ensures IsNewest(top, k, ms)
    decreases |ms|
  {
    var m, rest := ms[0], ms[1..];
    assert forall o :: o in ms <==> o == m || o in rest;
    if exists o :: o in rest && o.filter.key == k {
      top := NewestExists(k, rest);
      if m.filter.key == k && m.filter.guard.value.n > top.filter.guard.value.n {
        top := m;
      }
    } else {
      top := m;
    }
  }

  /** Any two sequences of the same overwrites, in any order and with any duplication, leave the same event. */
  lemma OverwritesConverge(k: Value, cur: Option<Doc>, ms: seq<WriteModel>, ms': seq<WriteModel>)
    requires AllOverwrites(ms) && DistinctStamps(ms)
    requires forall m :: m in ms <==> m in ms'
    ensures RunAt(k, cur, ms) == RunAt(k, cur, ms')
  {
    if exists m :: m in ms && m.filter.key == k {
      var top := NewestExists(k, ms);
      assert IsNewest(top, k, ms');
      if cur.Some? && !GuardAdmits(cur.value, top.filter.guard) {
        assert AllRefused(k, cur.value, ms);
        RunRefused(k, cur.value, ms);
        RunRefused(k, cur.value, ms');
      } else {
        NewestWins(k, cur, ms, top);
        NewestWins(k, cur, ms', top);
      }
    } else {
      Untouched(k, cur, ms);
      Untouched(k, cur, ms');
    }
  }

  lemma {:induction false} Untouched(k: Value, cur: Option<Doc>, ms: seq<WriteModel>)
    requires forall m :: m in ms ==> m.filter.key != k
    ensures RunAt(k, cur, ms) == cur
    decreases |ms|
  {
    if ms != [] {
      Untouched(k, cur, ms[1..]);
    }
  }

  // --- track: replays change nothing ----------------------------------------------------------

  predicate IsTrack(m: WriteModel) {
    m.UpdateOne? && m.filter.guard.None? && m.update == NO_UPDATE.(setsOnInsert := m.update.setsOnInsert)
  }

  /** Once an event is there, any number of track lines for it leave it as it is. */
  lemma {:induction false} TrackOnPresent(c: Coll, replay: seq<WriteModel>)
    requires forall m :: m in replay ==> IsTrack(m) && m.filter.key in c
    ensures WriteAll(c, replay) == c
    decreases |replay|
  {
    if replay != [] {
      var m := replay[0];
      InsertOnlyUpdate(c[m.filter.key], m.update, false);
      SameEverywhere(Write(c, m), c);
      TrackOnPresent(c, replay[1..]);
    }
  }

  /** Replaying any already applied track lines, in any amount, leaves every event unchanged. */
  lemma {:induction false} TrackReplay(c: Coll, batch: seq<WriteModel>, replay: seq<WriteModel>)
    requires AllRetryable(batch) && forall m :: m in batch ==> !m.DeleteOne?
    requires forall m :: m in replay ==> IsTrack(m) && m in batch
    ensures WriteAll(WriteAll(c, batch), replay) == WriteAll(c, batch)
  {
    var c' := WriteAll(c, batch);
    forall m | m in replay ensures m.filter.key in c' {
      WriteAllAt(c, batch, m.filter.key);
      WrittenIsPresent(m.filter.key, At(c, m.filter.key), batch, m);
    }
    TrackOnPresent(c', replay);
  }

  lemma {:induction false} WrittenIsPresent(k: Value, cur: Option<Doc>, ms: seq<WriteModel>, m: WriteModel)
    requires AllRetryable(ms) && NoDelete(k, ms)
    requires m in ms && m.filter.key == k
    ensures RunAt(k, cur, ms).Some?
    decreases |ms|
  {
    var first, rest := ms[0], ms[1..];
    assert Retryable(first);
    StepMeans(cur, first);
    hide WriteDoc;
    if m in rest {
      WrittenIsPresent(k, StepAt(k, cur, first), rest, m);
    } else {
      StaysPresent(k, StepAt(k, cur, first).value, rest);
    }
  }

  // --- The stored timestamp only moves forward ---------------------------------------------------

  /** The shape of the models of user operations other than user_del: a guarded overlay that stamps its own
      timestamp, or an unguarded update that raises `_ts` with $max. */
  predicate IsUserWrite(m: WriteModel) {
    && m.UpdateOne? && ConflictFree(m.update)
    && if m.filter.guard.Some? then
         && m.update == NO_UPDATE.(sets := m.update.sets, unsets := m.update.unsets)
         && Stamped(m.update.sets) && m.filter.guard == Some(Num(Ts(m.update.sets)))
       else "_ts" in m.update.maxes && m.update.maxes["_ts"].Num?
  }

  lemma UserModelIsUserWrite(typ: string, userID: int, doc: Doc)
    requires UserRecord(userID, doc) && typ != "user_del"
    ensures IsUserWrite(UserModel(typ, userID, doc))
  {
    var m := UserModel(typ, userID, doc);
    UserModelConflictFree(typ, userID, doc);
  }

  /** A document whose `_ts` is a number at least this. */
  predicate TsAtLeast(cur: Option<Doc>, ts: int) {
    cur.Some? && "_ts" in cur.value && cur.value["_ts"].Num? && cur.value["_ts"].n >= ts
  }

  lemma TsMovesForward(cur: Option<Doc>, m: WriteModel, ts: int)
    requires IsUserWrite(m) && TsAtLeast(cur, ts)
    ensures TsAtLeast(WriteDoc(cur, m).doc, ts)
  {
    if Applicable(cur.value, m.update) {
      UpdatedField(cur.value, m.update, false, "_ts");
      assert Field(ApplyUpdate(cur.value, m.update, false), "_ts").Some? ==>
             "_ts" in ApplyUpdate(cur.value, m.update, false);
    }
    hide Applicable, ApplyUpdate;
  }

  /** Under any mix of user operations other than user_del the stored `_ts` never decreases. */
  lemma {:induction false} NoRollback(k: Value, cur: Option<Doc>, ms: seq<WriteModel>, ts: int)
    requires forall m :: m in ms ==> IsUserWrite(m)
    requires TsAtLeast(cur, ts)
    ensures TsAtLeast(RunAt(k, cur, ms), ts)
    decreases |ms|
  {
    if ms != [] {
      assert IsUserWrite(ms[0]);
      if ms[0].filter.key == k {
        TsMovesForward(cur, ms[0], ts);
      }
      hide WriteDoc, IsUserWrite;
      NoRollback(k, StepAt(k, cur, ms[0]), ms[1..], ts);
    }
  }

  // --- user_add: order does not matter -------------------------------------------------------------

  // The business fields and the timestamp of one user_add.
  datatype Add = Add(data: Doc, ts: int)

  function AddOf(doc: Doc): (a: Add)
    requires Stamped(doc)
    ensures BusinessOnly(a)
  {
    Add(Data(doc), Ts(doc))
  }

  /** The part of a document that user_add orders do not affect: business fields and `_ts`. */
  predicate Seen(f: string) {
    f == "_ts" || !IsMeta(f)
  }

  function View(cur: Option<Doc>): Option<Doc> {
    if cur.None? then None else Some(map f | f in cur.value && Seen(f) :: cur.value[f])
  }

  function Base(v: Option<Doc>): Doc {
    if v.None? then map[] else v.value
  }

  predicate AddFits(v: Option<Doc>, a: Add) {
    forall f :: f in a.data ==> CanInc(Field(Base(v), f), a.data[f])
  }

  /** What one user_add does to the view; one that does not fit every field does nothing. */
  function AddTo(v: Option<Doc>, a: Add): Option<Doc> {
    if !AddFits(v, a) then v
    else
      var d := Base(v);
      Some(d + map["_ts" := MaxOf(Field(d, "_ts"), Num(a.ts))]
           + (map f | f in a.data :: IncOf(Field(d, f), a.data[f])))
  }

  predicate BusinessOnly(a: Add) {
    forall f :: f in a.data ==> !IsMeta(f)
  }

  lemma AddToField(v: Option<Doc>, a: Add, f: string)
    requires BusinessOnly(a) && AddFits(v, a)
    ensures AddTo(v, a).Some?
    ensures Field(AddTo(v, a).value, f) ==
            if f == "_ts" then Some(MaxOf(Field(Base(v), f), Num(a.ts)))
            else if f in a.data then Some(IncOf(Field(Base(v), f), a.data[f]))
            else Field(Base(v), f)
  {
  }

  // Whether an add fits is not changed by another add.
  lemma FitsEither(v: Option<Doc>, a: Add, b: Add)
    requires BusinessOnly(a) && BusinessOnly(b) && AddFits(v, b)
    ensures AddFits(AddTo(v, b), a) <==> AddFits(v, a)
  {
    forall f ensures f in a.data ==>
                       (CanInc(Field(Base(AddTo(v, b)), f), a.data[f]) <==> CanInc(Field(Base(v), f), a.data[f]))
    {
      AddToField(v, b, f);
    }
    hide AddTo;
  }

  lemma CommuteField(v: Option<Doc>, a: Add, b: Add, f: string)
    requires BusinessOnly(a) && BusinessOnly(b) && AddFits(v, a) && AddFits(v, b)
    requires AddFits(AddTo(v, a), b) && AddFits(AddTo(v, b), a)
    ensures AddTo(AddTo(v, a), b).Some? && AddTo(AddTo(v, b), a).Some?
    ensures Field(AddTo(AddTo(v, a), b).value, f) == Field(AddTo(AddTo(v, b), a).value, f)
  {
    hide AddTo;
    assert f in a.data || f in b.data ==> f != "_ts";
    assert f in a.data ==> CanInc(Field(Base(v), f), a.data[f]);
    assert f in b.data ==> CanInc(Field(Base(v), f), b.data[f]);
    hide AddFits, BusinessOnly, IsMeta;
    AddToField(v, a, f);
    AddToField(v, b, f);
    AddToField(AddTo(v, a), b, f);
    AddToField(AddTo(v, b), a, f);
  }

  lemma AddsCommute(v: Option<Doc>, a: Add, b: Add)
    requires BusinessOnly(a) && BusinessOnly(b)
    ensures AddTo(AddTo(v, a), b) == AddTo(AddTo(v, b), a)
  {
    if AddFits(v, a) && AddFits(v, b) {
      FitsEither(v, a, b);
      FitsEither(v, b, a);
      hide AddTo, AddFits, BusinessOnly, Base;
      CommuteField(v, a, b, "_ts");
      var ab, ba := AddTo(AddTo(v, a), b).value, AddTo(AddTo(v, b), a).value;
      forall f ensures Field(ab, f) == Field(ba, f) {
        CommuteField(v, a, b, f);
      }
      SameFields(ab, ba);
    } else if AddFits(v, a) {
      FitsEither(v, b, a);
    } else if AddFits(v, b) {
      FitsEither(v, a, b);
    }
  }

  predicate AllStamped(docs: seq<Doc>) {
    forall d :: d in docs ==> Stamped(d)
  }

  function AddAllTo(v: Option<Doc>, docs: seq<Doc>): Option<Doc>
    requires AllStamped(docs)
    decreases |docs|
  {
    if docs == [] then v
    else
      assert docs[0] in docs;
      AddAllTo(AddTo(v, AddOf(docs[0])), docs[1..])
  }

  lemma AddAllToCons(v: Option<Doc>, d: Doc, docs: seq<Doc>)
    requires Stamped(d) && AllStamped(docs)
    ensures AllStamped([d] + docs) && AddAllTo(v, [d] + docs) == AddAllTo(AddTo(v, AddOf(d)), docs)
  {
    hide Stamped, AddTo, AddOf;
    assert ([d] + docs)[1..] == docs;
  }

  lemma {:induction false} MoveToFront(v: Option<Doc>, docs: seq<Doc>, i: nat)
    requires i < |docs| && AllStamped(docs)
    ensures var rest := docs[..i] + docs[i + 1..];
            AllStamped([docs[i]] + rest) && AddAllTo(v, docs) == AddAllTo(v, [docs[i]] + rest)
    decreases i
  {
    hide Stamped, AddTo, AddOf, AddAllTo;
    if i == 0 {
      assert [docs[0]] + (docs[..0] + docs[1..]) == docs;
    } else {
      var d, x, tail := docs[0], docs[i], docs[1..i] + docs[i + 1..];
      assert d in docs && x in docs && AllStamped(tail) && docs == [d] + docs[1..];
      assert docs[1..][..i - 1] + docs[1..][i..] == tail && docs[..i] + docs[i + 1..] == [d] + tail;
      MoveToFront(AddTo(v, AddOf(d)), docs[1..], i - 1);
      AddAllToCons(v, d, docs[1..]);
      AddAllToCons(AddTo(v, AddOf(d)), x, tail);
      AddAllToCons(AddTo(v, AddOf(x)), d, tail);
      AddAllToCons(v, x, [d] + tail);
      AddsCommute(v, AddOf(d), AddOf(x));
    }
  }

  /** Equal multisets stay equal when one occurrence of the same element is dropped from each. */
  lemma DropSame<T>(xs: seq<T>, ys: seq<T>, i: nat)
    requires xs != [] && multiset(xs) == multiset(ys) && i < |ys| && ys[i] == xs[0]
    ensures multiset(xs[1..]) == multiset(ys[..i] + ys[i + 1..])
  {
    var x, rest, rest' := xs[0], xs[1..], ys[..i] + ys[i + 1..];
    assert multiset(xs) == multiset{x} + multiset(rest) by {
      assert xs == [x] + rest;
    }
    assert multiset(ys) == multiset{x} + multiset(rest') by {
      assert ys == ys[..i] + [x] + ys[i + 1..];
    }
    assert multiset(rest) == multiset(xs) - multiset{x};
    assert multiset(rest') == multiset(ys) - multiset{x};
  }

  lemma {:induction false} AddsPermute(v: Option<Doc>, docs: seq<Doc>, docs': seq<Doc>)
    requires multiset(docs) == multiset(docs') && AllStamped(docs)
    ensures AllStamped(docs') && AddAllTo(v, docs) == AddAllTo(v, docs')
    decreases |docs|
  {
    hide Stamped, AddTo, AddOf;
    assert forall d :: d in docs' ==> d in multiset(docs);
    if docs == [] {
      assert |multiset(docs')| == 0;
    } else {
      var d := docs[0];
      assert d in multiset(docs') && d in docs;
      var i :| 0 <= i < |docs'| && docs'[i] == d;
      var rest' := docs'[..i] + docs'[i + 1..];
      hide AddAllTo;
      MoveToFront(v, docs', i);
      DropSame(docs, docs', i);
      AddsPermute(AddTo(v, AddOf(d)), docs[1..], rest');
      assert docs == [d] + docs[1..];
      AddAllToCons(v, d, docs[1..]);
      AddAllToCons(v, d, rest');
    }
  }

  lemma AddModelFields(userID: int, doc: Doc, f: string)
    requires UserRecord(userID, doc)
    ensures var u, a := UserModel("user_add", userID, doc).update, AddOf(doc);
            && u.incs == a.data && u.maxes == map["_ts" := Num(a.ts)] && u.pushes == map[] && u.adds == map[]
            && u.unsets == {} && u.setsOnInsert == map[] && "_ts" !in a.data
            && (Seen(f) ==> f !in u.sets)
    ensures BusinessOnly(AddOf(doc))
    ensures UserModel("user_add", userID, doc).filter == Filter("#user_id", Num(userID), None)
  {
  }

  lemma ViewField(cur: Option<Doc>, f: string)
    ensures Field(Base(View(cur)), f) == if Seen(f) then Field(if cur.Some? then cur.value else map[], f) else None
  {
  }

  lemma AddedField(userID: int, doc: Doc, cur: Option<Doc>, f: string)
    requires UserRecord(userID, doc) && AddFits(View(cur), AddOf(doc))
    requires var m := UserModel("user_add", userID, doc);
             Applicable(if cur.Some? then cur.value else Seed(m.filter), m.update)
    ensures var r := WriteDoc(cur, UserModel("user_add", userID, doc)).doc;
            r.Some? && Field(Base(View(r)), f) == Field(Base(AddTo(View(cur), AddOf(doc))), f)
  {
    var m, a := UserModel("user_add", userID, doc), AddOf(doc);
    var from := if cur.Some? then cur.value else Seed(m.filter);
    AddModelFields(userID, doc, f);
    assert Seen(f) ==> Field(from, f) == Field(if cur.Some? then cur.value else map[], f);
    assert f in a.data ==> Seen(f);
    assert WriteDoc(cur, m).doc == Some(ApplyUpdate(from, m.update, cur.None?));
    UpdatedField(from, m.update, cur.None?, f);
    AddToField(View(cur), a, f);
    ViewField(cur, f);
    ViewField(WriteDoc(cur, m).doc, f);
    hide ApplyUpdate, AddTo, Applicable, AddFits, View, Base, WriteDoc, UserModel, IsMeta, BusinessOnly;
  }

  lemma AddApplies(userID: int, doc: Doc, cur: Option<Doc>)
    requires UserRecord(userID, doc)
    ensures var m := UserModel("user_add", userID, doc);
            Applicable(if cur.Some? then cur.value else Seed(m.filter), m.update) <==> AddFits(View(cur), AddOf(doc))
  {
    var m, a := UserModel("user_add", userID, doc), AddOf(doc);
    UserModelConflictFree("user_add", userID, doc);
    AddModelFields(userID, doc, "");
    forall f | f in a.data
      ensures Field(if cur.Some? then cur.value else Seed(m.filter), f) == Field(Base(View(cur)), f)
    {
      assert Seen(f);
      ViewField(cur, f);
    }
    hide UserModel, View, Base, ConflictFree;
  }

  /** One user_add on a document is one add on its view. */
  lemma UserAddOnView(userID: int, doc: Doc, cur: Option<Doc>)
    requires UserRecord(userID, doc)
    ensures View(WriteDoc(cur, UserModel("user_add", userID, doc)).doc) == AddTo(View(cur), AddOf(doc))
  {
    var m, a := UserModel("user_add", userID, doc), AddOf(doc);
    AddModelFields(userID, doc, "");
    AddApplies(userID, doc, cur);
    hide Applicable, AddFits, UserModel;
    if AddFits(View(cur), a) {
      AddedField(userID, doc, cur, "_ts");
      AddToField(View(cur), a, "_ts");
      var v, w := View(WriteDoc(cur, m).doc).value, AddTo(View(cur), a).value;
      forall f ensures Field(v, f) == Field(w, f) {
        AddedField(userID, doc, cur, f);
      }
      hide ApplyUpdate, AddTo, View, Base;
      SameFields(v, w);
    }
  }

  function AddModels(userID: int, docs: seq<Doc>): seq<WriteModel>
    requires forall d :: d in docs ==> UserRecord(userID, d)
  {
    if docs == [] then []
    else
      assert docs[0] in docs && UserRecord(userID, docs[0]);
      [UserModel("user_add", userID, docs[0])] + AddModels(userID, docs[1..])
  }

  lemma {:induction false} UserAddsOnView(userID: int, docs: seq<Doc>, cur: Option<Doc>)
    requires forall d :: d in docs ==> UserRecord(userID, d)
    ensures AllStamped(docs)
    ensures View(RunAt(Num(userID), cur, AddModels(userID, docs))) == AddAllTo(View(cur), docs)
    decreases |docs|
  {
    if docs != [] {
      var doc, rest := docs[0], docs[1..];
      assert doc in docs && UserRecord(userID, doc);
      AddModelFields(userID, doc, "");
      UserAddOnView(userID, doc, cur);
      var m, ms := UserModel("user_add", userID, doc), AddModels(userID, rest);
      hide UserModel, AddOf, View, WriteDoc, AddTo;
      UserAddsOnView(userID, rest, WriteDoc(cur, m).doc);
      assert ([m] + ms)[1..] == ms;
    }
  }

  /** Every permutation of a run of user_add records gives the same business fields and `_ts`. */
  lemma UserAddsPermute(userID: int, docs: seq<Doc>, docs': seq<Doc>, cur: Option<Doc>)
    requires multiset(docs) == multiset(docs')
    requires forall d :: d in docs ==> UserRecord(userID, d)
    ensures forall d :: d in docs' ==> UserRecord(userID, d)
    ensures View(RunAt(Num(userID), cur, AddModels(userID, docs))) ==
            View(RunAt(Num(userID), cur, AddModels(userID, docs')))
  {
    assert forall d :: d in docs' ==> d in multiset(docs);
    UserAddsOnView(userID, docs, cur);
    UserAddsOnView(userID, docs', cur);
    AddsPermute(View(cur), docs, docs');
  }
}
