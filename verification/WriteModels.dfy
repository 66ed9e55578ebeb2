/** The write models of user and event operations (internal/dao/store/writemodel.go). */
module WriteModels {
  import opened Wrappers
  import opened Documents

  predicate IsMeta(key: string) {
    key == "#uuid" || key == "#type" || key == "#time" || key == "#user_id" ||
    key == "#account_id" || key == "#distinct_id" || key == "_ts"
  }

  function Meta(doc: Doc): Doc {
    map k | k in doc && IsMeta(k) :: doc[k]
  }

  function Data(doc: Doc): Doc {
    map k | k in doc && !IsMeta(k) :: doc[k]
  }

  /** Splits a document into its identifier fields and its business fields. */
  method SplitFields(doc: Doc) returns (meta: Doc, data: Doc)
    ensures meta == Meta(doc) && data == Data(doc)
    ensures meta.Keys !! data.Keys && meta + data == doc
  {
    meta, data := map[], map[];
    var rest := doc.Keys;
    while rest != {}
      invariant rest <= doc.Keys
      invariant meta == map k | k in doc && k !in rest && IsMeta(k) :: doc[k]
      invariant data == map k | k in doc && k !in rest && !IsMeta(k) :: doc[k]
      decreases |rest|
    {
      var k :| k in rest;
      if IsMeta(k) {
        meta := meta[k := doc[k]];
      } else {
        data := data[k := doc[k]];
      }
      rest := rest - {k};
    }
  }

  /** The identifier fields are these seven, and no other. */
  lemma IdentifierFields(doc: Doc)
    ensures Data(doc) == doc - {"#uuid", "#type", "#time", "#user_id", "#account_id", "#distinct_id", "_ts"}
    ensures Meta(doc).Keys + Data(doc).Keys == doc.Keys && Meta(doc).Keys !! Data(doc).Keys
  {
  }

  /** A document with a numeric `_ts`, as the parser stamps it. */
  predicate Stamped(doc: Doc) {
    "_ts" in doc && doc["_ts"].Num?
  }

  function Ts(doc: Doc): int
    requires Stamped(doc)
  {
    doc["_ts"].n
  }

  /** The timestamp of any document, null if it has none. */
  function TsOf(doc: Doc): Value {
    if "_ts" in doc then doc["_ts"] else Null
  }

  /** `$max` for `_ts`, `$set` for the other meta fields. */
  function MetaMax(meta: Doc): Update {
    NO_UPDATE.(sets := meta - {"_ts"}, maxes := if "_ts" in meta then map["_ts" := meta["_ts"]] else map[])
  }

  method MetaMaxUpdate(meta: Doc) returns (u: Update)
    ensures u == MetaMax(meta)
  {
    var sets, maxes: Doc := map[], map[];
    var rest := meta.Keys;
    while rest != {}
      invariant rest <= meta.Keys
      invariant sets == map k | k in meta && k !in rest && k != "_ts" :: meta[k]
      invariant maxes == if "_ts" in meta && "_ts" !in rest then map["_ts" := meta["_ts"]] else map[]
      decreases |rest|
    {
      var k :| k in rest;
      if k == "_ts" {
        maxes := maxes["_ts" := meta[k]];
      } else {
        sets := sets[k := meta[k]];
      }
      rest := rest - {k};
    }
    u := NO_UPDATE.(sets := sets, maxes := maxes);
  }

  /** Every meta field is in exactly one of the two, and only `_ts` is raised. */
  lemma MetaMaxSplits(meta: Doc)
    ensures var u := MetaMax(meta);
            u.sets.Keys !! u.maxes.Keys && u.sets + u.maxes == meta && u.maxes.Keys == meta.Keys * {"_ts"}
  {
  }

  /** The items an append adds: an array's own, or the single value. */
  function Each(v: Value): seq<Value> {
    if v.Arr? then v.items else [v]
  }

  function ToEach(data: Doc): map<string, seq<Value>> {
    map k | k in data :: Each(data[k])
  }

  method ToEachFields(data: Doc) returns (result: map<string, seq<Value>>)
    ensures result == ToEach(data)
  {
    result := map[];
    var rest := data.Keys;
    while rest != {}
      invariant rest <= data.Keys
      invariant result == map k | k in data && k !in rest :: Each(data[k])
      decreases |rest|
    {
      var k :| k in rest;
      result := result[k := Each(data[k])];
      rest := rest - {k};
    }
  }

  /** The model of a user operation on a document that already carries its #user_id. */
  function UserModel(typ: string, userID: int, doc: Doc): WriteModel {
    var meta, data := Meta(doc), Data(doc);
    var byId := Filter("#user_id", Num(userID), None);
    var guarded := byId.(guard := Some(TsOf(meta)));
    if typ == "user_setOnce" then UpdateOne(byId, MetaMax(meta).(setsOnInsert := data))
    else if typ == "user_add" then UpdateOne(byId, MetaMax(meta).(incs := data))
    else if typ == "user_unset" then UpdateOne(guarded, NO_UPDATE.(sets := meta, unsets := data.Keys))
    else if typ == "user_del" then DeleteOne(byId)
    else if typ == "user_append" then UpdateOne(byId, MetaMax(meta).(pushes := ToEach(data)))
    else if typ == "user_uniq_append" then UpdateOne(byId, MetaMax(meta).(adds := ToEach(data)))
    else UpdateOne(guarded, NO_UPDATE.(sets := meta + data))
  }

  /** A document the caller shares with the builder, which writes into it. */
  class Record {
    var doc: Doc

    constructor (doc: Doc)
      ensures this.doc == doc
    {
      this.doc := doc;
    }
  }

  method UserWriteModel(typ: string, userID: int, rec: Record) returns (m: WriteModel)
    modifies rec
    ensures rec.doc == old(rec.doc)["#user_id" := Num(userID)]
    ensures m == UserModel(typ, userID, rec.doc)
  {
    var filter := Filter("#user_id", Num(userID), None);
    rec.doc := rec.doc["#user_id" := Num(userID)];
    var meta, data := SplitFields(rec.doc);
    var ts := TsOf(meta);
    match typ {
      case "user_set" =>
        return UpdateOne(filter.(guard := Some(ts)), NO_UPDATE.(sets := meta + data));
      case "user_setOnce" =>
        var u := MetaMaxUpdate(meta);
        return UpdateOne(filter, u.(setsOnInsert := data));
      case "user_add" =>
        var u := MetaMaxUpdate(meta);
        return UpdateOne(filter, u.(incs := data));
      case "user_unset" =>
        return UpdateOne(filter.(guard := Some(ts)), NO_UPDATE.(sets := meta, unsets := data.Keys));
      case "user_del" =>
        return DeleteOne(filter);
      case "user_append" =>
        var u := MetaMaxUpdate(meta);
        var each := ToEachFields(data);
        return UpdateOne(filter, u.(pushes := each));
      case "user_uniq_append" =>
        var u := MetaMaxUpdate(meta);
        var each := ToEachFields(data);
        return UpdateOne(filter, u.(adds := each));
      case _ =>
        return UpdateOne(filter.(guard := Some(ts)), NO_UPDATE.(sets := meta + data));
    }
  }

  /** The document an event is written from: keyed and stamped if it was not. */
  function Keyed(uuid: string, doc: Doc, now: int): Doc {
    var d := if "#uuid" in doc && doc["#uuid"].Str? && doc["#uuid"].s != "" then doc else doc["#uuid" := Str(uuid)];
    if "_ts" in d && d["_ts"] != Null then d else d["_ts" := Num(now)]
  }

  function EventModel(typ: string, uuid: string, doc: Doc): WriteModel {
    var byId := Filter("#uuid", Str(uuid), None);
    var guarded := byId.(guard := Some(TsOf(doc)));
    if typ == "track_update" then UpdateOne(guarded, NO_UPDATE.(sets := doc))
    else if typ == "track_overwrite" then ReplaceOne(guarded, doc)
    else UpdateOne(byId, NO_UPDATE.(setsOnInsert := doc))
  }

  method EventWriteModel(typ: string, uuid: string, rec: Record, now: int) returns (m: WriteModel)
    modifies rec
    ensures rec.doc == Keyed(uuid, old(rec.doc), now)
    ensures m == EventModel(typ, uuid, rec.doc)
  {
    if !("#uuid" in rec.doc && rec.doc["#uuid"].Str?) || rec.doc["#uuid"].s == "" {
      rec.doc := rec.doc["#uuid" := Str(uuid)];
    }
    if "_ts" !in rec.doc || rec.doc["_ts"] == Null {
      rec.doc := rec.doc["_ts" := Num(now)];
    }
    var ts := TsOf(rec.doc);
    var filter := Filter("#uuid", Str(uuid), None);
    match typ {
      case "track_update" =>
        return UpdateOne(filter.(guard := Some(ts)), NO_UPDATE.(sets := rec.doc));
      case "track_overwrite" =>
        return ReplaceOne(filter.(guard := Some(ts)), rec.doc);
      case _ =>
        return UpdateOne(filter, NO_UPDATE.(setsOnInsert := rec.doc));
    }
  }

  // --- What the models mean ------------------------------------------------------------

  /** A document that carries this user id, as the builder leaves it. */
  predicate OwnId(userID: int, doc: Doc) {
    "#user_id" in doc && doc["#user_id"] == Num(userID)
  }

  /** A record as the parser and the builder leave it: stamped, and keyed by its own user id. */
  predicate UserRecord(userID: int, doc: Doc) {
    Stamped(doc) && OwnId(userID, doc)
  }

  /** Two operators of one model never name the same field. */
  lemma UserModelConflictFree(typ: string, userID: int, doc: Doc)
    ensures var m := UserModel(typ, userID, doc); m.UpdateOne? ==> ConflictFree(m.update)
  {
  }

  /** A guarded overlay that names its own key: applied, unless the stored document is newer. */
  lemma GuardedOverlay(f: Filter, ts: Value, sets: Doc, unsets: set<string>, cur: Option<Doc>)
    requires f.field in sets && sets[f.field] == f.key && sets.Keys !! unsets
    ensures var w := WriteDoc(cur, UpdateOne(f.(guard := Some(ts)), NO_UPDATE.(sets := sets, unsets := unsets)));
            if cur.Some? && "_ts" in cur.value && !NotNewer(cur.value["_ts"], ts)
            then w == Written(cur, Some(DuplicateKey))
            else w == Written(Some(((if cur.Some? then cur.value else map[]) + sets) - unsets), None)
  {
    var u := NO_UPDATE.(sets := sets, unsets := unsets);
    var empty: Doc := map[];
    assert Seed(f) + sets == sets == empty + sets;
    PlainUpdate(if cur.Some? then cur.value else Seed(f), u, cur.None?);
    hide ApplyUpdate, Applicable;
  }

  /** user_set: every field of the record, unless the stored document is newer. */
  lemma UserSetMeans(typ: string, userID: int, doc: Doc, cur: Option<Doc>)
    requires OwnId(userID, doc)
    requires typ !in {"user_setOnce", "user_add", "user_unset", "user_del", "user_append", "user_uniq_append"}
    ensures var w := WriteDoc(cur, UserModel(typ, userID, doc));
            if cur.Some? && "_ts" in cur.value && !NotNewer(cur.value["_ts"], TsOf(doc))
            then w == Written(cur, Some(DuplicateKey))
            else w == Written(Some((if cur.Some? then cur.value else map[]) + doc), None)
  {
    assert Meta(doc) + Data(doc) == doc;
    GuardedOverlay(Filter("#user_id", Num(userID), None), TsOf(doc), doc, {}, cur);
    var from: Doc := if cur.Some? then cur.value else map[];
    assert (from + doc) - {} == from + doc;
    hide WriteDoc;
  }

  /** user_unset: the named business fields are gone and the identifiers are the record's, unless the stored
      document is newer. */
  lemma UserUnsetMeans(userID: int, doc: Doc, cur: Option<Doc>)
    requires OwnId(userID, doc)
    ensures var w := WriteDoc(cur, UserModel("user_unset", userID, doc));
            if cur.Some? && "_ts" in cur.value && !NotNewer(cur.value["_ts"], TsOf(doc))
            then w == Written(cur, Some(DuplicateKey))
            else w == Written(Some(((if cur.Some? then cur.value else map[]) + Meta(doc)) - Data(doc).Keys), None)
  {
    GuardedOverlay(Filter("#user_id", Num(userID), None), TsOf(doc), Meta(doc), Data(doc).Keys, cur);
    hide WriteDoc;
  }

  /** `_ts` after `$max` with a record's, if it has one. */
  function MaxField(was: Option<Value>, doc: Doc): Option<Value> {
    if "_ts" in doc then Some(MaxOf(was, doc["_ts"])) else was
  }

  /** user_setOnce: business fields only on insert; the timestamp only moves forward. */
  lemma UserSetOnceMeans(userID: int, doc: Doc, cur: Option<Doc>)
    requires OwnId(userID, doc)
    ensures var w := WriteDoc(cur, UserModel("user_setOnce", userID, doc));
            w.error.None? && w.doc.Some? &&
            (cur.None? ==> w.doc.value == doc) &&
            (cur.Some? ==> Data(w.doc.value) == Data(cur.value)
                           && Field(w.doc.value, "_ts") == MaxField(Field(cur.value, "_ts"), doc))
  {
    var m := UserModel("user_setOnce", userID, doc);
    UserModelConflictFree("user_setOnce", userID, doc);
    var from := if cur.Some? then cur.value else Seed(m.filter);
    assert Applicable(from, m.update);
    forall f ensures Field(ApplyUpdate(from, m.update, cur.None?), f) ==
                     if f == "_ts" then MaxField(Field(from, f), doc)
                     else if f in Meta(doc) then Some(doc[f])
                     else if cur.None? && f in doc then Some(doc[f])
                     else Field(from, f)
    {
      UpdatedField(from, m.update, cur.None?, f);
    }
    hide ApplyUpdate, Applicable;
    SetOnceFields(from, WriteDoc(cur, m).doc.value, doc, cur.None?);
  }

  lemma SetOnceFields(from: Doc, to: Doc, doc: Doc, inserting: bool)
    requires inserting ==> from.Keys <= {"#user_id"} && "#user_id" in doc
    requires forall f :: Field(to, f) ==
               if f == "_ts" then MaxField(Field(from, f), doc)
               else if f in Meta(doc) then Some(doc[f])
               else if inserting && f in doc then Some(doc[f])
               else Field(from, f)
    ensures inserting ==> to == doc
    ensures !inserting ==> Data(to) == Data(from)
    ensures Field(to, "_ts") == MaxField(Field(from, "_ts"), doc)
  {
    if inserting {
      SameFields(to, doc);
    } else {
      forall f ensures Field(Data(to), f) == Field(Data(from), f) {
        assert Field(to, f) == Field(from, f) || IsMeta(f);
      }
      SameFields(Data(to), Data(from));
    }
  }

  /** The document an operation on a user works on: as stored, or just its key. */
  function StoredUser(userID: int, cur: Option<Doc>): Doc {
    if cur.Some? then cur.value else map["#user_id" := Num(userID)]
  }

  /** Some business field of the record is stored as something else than an array. */
  predicate Misfits(doc: Doc, stored: Doc) {
    exists f :: f in doc && !IsMeta(f) && f in stored && !stored[f].Arr?
  }

  /** The stored items of a field, none if there is no such array. */
  function StoredItems(stored: Doc, f: string): seq<Value> {
    if f in stored && stored[f].Arr? then stored[f].items else []
  }

  /** What an append leaves of the fields it does not append to. */
  ghost predicate OthersKept(doc: Doc, stored: Doc, now: Doc) {
    && Field(now, "_ts") == MaxField(Field(stored, "_ts"), doc)
    && (forall f :: IsMeta(f) && f != "_ts" ==> Field(now, f) == if f in doc then Some(doc[f]) else Field(stored, f))
    && (forall f :: !IsMeta(f) && f !in doc ==> Field(now, f) == Field(stored, f))
  }

  lemma AppendApplicable(typ: string, userID: int, doc: Doc, stored: Doc)
    requires typ in {"user_append", "user_uniq_append"}
    ensures var m := UserModel(typ, userID, doc);
            m.UpdateOne? && m.filter.guard.None? && (Applicable(stored, m.update) <==> !Misfits(doc, stored))
  {
    UserModelConflictFree(typ, userID, doc);
    var u := UserModel(typ, userID, doc).update;
    assert u.pushes.Keys + u.adds.Keys == Data(doc).Keys && u.incs == map[];
    hide ConflictFree, ToEach;
    if Misfits(doc, stored) {
      var f :| f in doc && !IsMeta(f) && f in stored && !stored[f].Arr?;
      assert f in Data(doc) && !CanAppend(Field(stored, f));
    }
  }

  lemma AppendKeepsField(typ: string, userID: int, doc: Doc, stored: Doc, inserting: bool, f: string)
    requires typ in {"user_append", "user_uniq_append"} && Applicable(stored, UserModel(typ, userID, doc).update)
    requires IsMeta(f) || f !in doc
    ensures Field(ApplyUpdate(stored, UserModel(typ, userID, doc).update, inserting), f) ==
            if f == "_ts" then MaxField(Field(stored, f), doc)
            else if f in doc then Some(doc[f])
            else Field(stored, f)
  {
    UpdatedField(stored, UserModel(typ, userID, doc).update, inserting, f);
    hide ApplyUpdate, Applicable;
  }

  lemma AppendKeepsOthers(typ: string, userID: int, doc: Doc, stored: Doc, inserting: bool)
    requires typ in {"user_append", "user_uniq_append"} && Applicable(stored, UserModel(typ, userID, doc).update)
    ensures OthersKept(doc, stored, ApplyUpdate(stored, UserModel(typ, userID, doc).update, inserting))
  {
    assert UserModel(typ, userID, doc).UpdateOne? && IsMeta("_ts");
    hide ApplyUpdate, Applicable, UserModel, IsMeta;
    var now := ApplyUpdate(stored, UserModel(typ, userID, doc).update, inserting);
    AppendKeepsField(typ, userID, doc, stored, inserting, "_ts");
    forall f | IsMeta(f) && f != "_ts" ensures Field(now, f) == if f in doc then Some(doc[f]) else Field(stored, f) {
      AppendKeepsField(typ, userID, doc, stored, inserting, f);
    }
    forall f | !IsMeta(f) && f !in doc ensures Field(now, f) == Field(stored, f) {
      AppendKeepsField(typ, userID, doc, stored, inserting, f);
    }
  }

  /** user_append: refused if a named field is stored as something else than an array; else each business field of
      the record ends as its stored items followed by the record's, one by one. */
  lemma UserAppendMeans(userID: int, doc: Doc, cur: Option<Doc>)
    ensures var w, stored := WriteDoc(cur, UserModel("user_append", userID, doc)), StoredUser(userID, cur);
            if Misfits(doc, stored) then w == Written(cur, Some(BadUpdate))
            else
              && w.error.None? && w.doc.Some? && OthersKept(doc, stored, w.doc.value)
              && forall f :: f in doc && !IsMeta(f) ==>
                   && f in w.doc.value && w.doc.value[f].Arr?
                   && w.doc.value[f].items ==
                      StoredItems(stored, f) + (if doc[f].Arr? then doc[f].items else [doc[f]])
  {
    var m, stored := UserModel("user_append", userID, doc), StoredUser(userID, cur);
    AppendApplicable("user_append", userID, doc, stored);
    if !Misfits(doc, stored) {
      AppendKeepsOthers("user_append", userID, doc, stored, cur.None?);
      forall f | f in doc && !IsMeta(f)
        ensures Field(ApplyUpdate(stored, m.update, cur.None?), f) ==
                Some(Arr(StoredItems(stored, f) + (if doc[f].Arr? then doc[f].items else [doc[f]])))
      {
        UpdatedField(stored, m.update, cur.None?, f);
        assert f in Data(doc) && f in m.update.pushes && f !in m.update.adds && f !in m.update.unsets;
      }
    }
    hide ApplyUpdate, Applicable, Misfits, OthersKept, StoredItems;
  }

  /** Adding to a set, in order: stored items stay first, exactly the given ones are there as well, and none that is
      added was there before it. */
  ghost predicate AddedOnce(stored: seq<Value>, given: seq<Value>, now: seq<Value>) {
    && stored <= now
    && (forall v :: v in now <==> v in stored || v in given)
    && (forall j :: |stored| <= j < |now| ==> now[j] !in now[..j])
  }

  lemma {:induction false} AddAllMeans(items: seq<Value>, more: seq<Value>)
    ensures AddedOnce(items, more, AddAll(items, more))
    decreases |more|
  {
    if more != [] {
      var items' := if more[0] in items then items else items + [more[0]];
      AddAllMeans(items', more[1..]);
      var now := AddAll(items', more[1..]);
      assert forall v :: v in more <==> v == more[0] || v in more[1..];
      forall j | |items| <= j < |now| ensures now[j] !in now[..j] {
        if j < |items'| {
          assert now[..j] == items;
        }
      }
    }
  }

  /** user_uniq_append: the same for sets. */
  lemma UserUniqAppendMeans(userID: int, doc: Doc, cur: Option<Doc>)
    ensures var w, stored := WriteDoc(cur, UserModel("user_uniq_append", userID, doc)), StoredUser(userID, cur);
            if Misfits(doc, stored) then w == Written(cur, Some(BadUpdate))
            else
              && w.error.None? && w.doc.Some? && OthersKept(doc, stored, w.doc.value)
              && forall f :: f in doc && !IsMeta(f) ==>
                   && f in w.doc.value && w.doc.value[f].Arr?
                   && AddedOnce(StoredItems(stored, f), if doc[f].Arr? then doc[f].items else [doc[f]],
                                w.doc.value[f].items)
  {
    var m, stored := UserModel("user_uniq_append", userID, doc), StoredUser(userID, cur);
    AppendApplicable("user_uniq_append", userID, doc, stored);
    if !Misfits(doc, stored) {
      AppendKeepsOthers("user_uniq_append", userID, doc, stored, cur.None?);
      forall f | f in doc && !IsMeta(f)
        ensures var given := if doc[f].Arr? then doc[f].items else [doc[f]];
                Field(ApplyUpdate(stored, m.update, cur.None?), f) == Some(Arr(AddAll(StoredItems(stored, f), given)))
                && AddedOnce(StoredItems(stored, f), given, AddAll(StoredItems(stored, f), given))
      {
        UpdatedField(stored, m.update, cur.None?, f);
        AddAllMeans(StoredItems(stored, f), if doc[f].Arr? then doc[f].items else [doc[f]]);
        assert f in Data(doc) && f in m.update.adds && f !in m.update.unsets;
      }
    }
    hide ApplyUpdate, Applicable, Misfits, OthersKept, StoredItems, AddedOnce;
  }

  /** Adding what is already there leaves every item where it is. */
  lemma AddedAgain(stored: seq<Value>, given: seq<Value>, now: seq<Value>)
    requires AddedOnce(stored, given, now) && forall v :: v in given ==> v in stored
    ensures now == stored
  {
    forall j | |stored| <= j < |now| ensures now[j] in stored {
      assert now[j] in now;
    }
    assert stored == now[..|stored|];
  }

  /** So repeating a user_uniq_append changes no business field. */
  lemma UniqAppendTwice(userID: int, doc: Doc, cur: Option<Doc>)
    requires !Misfits(doc, StoredUser(userID, cur))
    ensures var m := UserModel("user_uniq_append", userID, doc);
            var once := WriteDoc(cur, m).doc; var twice := WriteDoc(once, m);
            once.Some? && twice.error.None? && twice.doc.Some? && Data(twice.doc.value) == Data(once.value)
  {
    UserUniqAppendMeans(userID, doc, cur);
    var m := UserModel("user_uniq_append", userID, doc);
    var once := WriteDoc(cur, m).doc;
    UserUniqAppendMeans(userID, doc, once);
    hide WriteDoc, UserModel;
    var twice := WriteDoc(once, m).doc.value;
    forall f ensures Field(Data(twice), f) == Field(Data(once.value), f) {
      if f in doc && !IsMeta(f) {
        AddedAgain(once.value[f].items, if doc[f].Arr? then doc[f].items else [doc[f]], twice[f].items);
      } else if !IsMeta(f) {
        assert Field(twice, f) == Field(once.value, f);
      }
    }
    SameFields(Data(twice), Data(once.value));
  }

  /** user_del leaves no document. */
  lemma UserDelMeans(userID: int, doc: Doc, cur: Option<Doc>)
    ensures UserModel("user_del", userID, doc).filter == Filter("#user_id", Num(userID), None)
    ensures WriteDoc(cur, UserModel("user_del", userID, doc)) == Written(None, None)
  {
  }

  /** track_update: every field of the record, the others as they were, unless the stored event is newer. */
  lemma TrackUpdateMeans(uuid: string, doc: Doc, cur: Option<Doc>)
    requires "#uuid" in doc && doc["#uuid"] == Str(uuid)
    ensures var w := WriteDoc(cur, EventModel("track_update", uuid, doc));
            if cur.Some? && "_ts" in cur.value && !NotNewer(cur.value["_ts"], TsOf(doc))
            then w == Written(cur, Some(DuplicateKey))
            else
              && w.error.None? && w.doc.Some?
              && forall f :: Field(w.doc.value, f) ==
                             if f in doc then Some(doc[f]) else if cur.Some? then Field(cur.value, f) else None
  {
    GuardedOverlay(Filter("#uuid", Str(uuid), None), TsOf(doc), doc, {}, cur);
    hide WriteDoc;
  }

  /** track_overwrite: exactly the record, unless the stored event is newer. */
  lemma TrackOverwriteMeans(uuid: string, doc: Doc, cur: Option<Doc>)
    ensures WriteDoc(cur, EventModel("track_overwrite", uuid, doc)) ==
            if cur.Some? && "_ts" in cur.value && !NotNewer(cur.value["_ts"], TsOf(doc))
            then Written(cur, Some(DuplicateKey))
            else Written(Some(doc), None)
  {
  }

  /** Any other event: exactly the record if there is none with its key, else nothing. */
  lemma TrackMeans(typ: string, uuid: string, doc: Doc, cur: Option<Doc>)
    requires typ !in {"track_update", "track_overwrite"} && "#uuid" in doc && doc["#uuid"] == Str(uuid)
    ensures WriteDoc(cur, EventModel(typ, uuid, doc)) == Written(if cur.Some? then cur else Some(doc), None)
  {
    var m := EventModel(typ, uuid, doc);
    InsertOnlyUpdate(if cur.Some? then cur.value else Seed(m.filter), m.update, cur.None?);
    assert Seed(m.filter) + doc == doc;
    hide ApplyUpdate, Applicable;
  }

  /** Documents that agree in every field are equal. */
  lemma SameFields(d: Doc, e: Doc)
    requires forall f :: Field(d, f) == Field(e, f)
    ensures d == e
  {
    assert forall f :: f in d <==> Field(d, f).Some?;
    assert forall f :: f in e <==> Field(e, f).Some?;
    assert d.Keys == e.Keys;
    forall f | f in d ensures d[f] == e[f] {
      assert Field(d, f) == Field(e, f);
    }
  }
}
