/** Documents and single-document writes, with the meaning MongoDB gives them for the
    operators this program sends.

    A collection is a map from the value of its unique index field (#user_id for users,
    #uuid for events) to the document; every write names one such key.
 */
module Documents {
  import opened Wrappers

  datatype Value =
    | Null | Bool(b: bool) | Num(n: int) | Str(s: string) | Arr(items: seq<Value>) | Sub(fields: map<string, Value>)

  type Doc = map<string, Value>

  type Coll = map<Value, Doc>

  /** An equality on the unique field, with the `_ts` guard when there is one. */
  datatype Filter = Filter(field: string, key: Value, guard: Option<Value>)

  datatype Update = Update(
    sets: Doc, unsets: set<string>, setsOnInsert: Doc, maxes: Doc,
    incs: Doc, pushes: map<string, seq<Value>>, adds: map<string, seq<Value>>)

  const NO_UPDATE := Update(map[], {}, map[], map[], map[], map[], map[])

  /** Every update and replacement this program sends is an upsert. */
  datatype WriteModel =
    | UpdateOne(filter: Filter, update: Update)
    | ReplaceOne(filter: Filter, replacement: Doc)
    | DeleteOne(filter: Filter)

  datatype WriteError = DuplicateKey | BadUpdate

  // --- Filters ---------------------------------------------------------------------

  /** The order of value types. */
  function Rank(v: Value): nat {
    match v
    case Null => 0
    case Num(_) => 1
    case Str(_) => 2
    case Sub(_) => 3
    case Arr(_) => 4
    case Bool(_) => 5
  }

  predicate StringAtMost(s: string, t: string) {
    s == "" || (t != "" && (s[0] < t[0] || (s[0] == t[0] && StringAtMost(s[1..], t[1..]))))
  }

  predicate ItemsAtMost(a: seq<Value>, b: seq<Value>) {
    a == [] || (b != [] && if a[0] == b[0] then ItemsAtMost(a[1..], b[1..]) else AtMost(a[0], b[0]))
  }

  /** The comparison order of values; two different sub-documents are not ordered. */
  predicate AtMost(v: Value, w: Value) {
    if Rank(v) != Rank(w) then Rank(v) < Rank(w)
    else match v
         case Null => true
         case Num(n) => n <= w.n
         case Str(s) => StringAtMost(s, w.s)
         case Sub(_) => v == w
         case Arr(items) => ItemsAtMost(items, w.items)
         case Bool(b) => b ==> w.b
  }

  predicate SameTypeAtMost(v: Value, w: Value) {
    Rank(v) == Rank(w) && AtMost(v, w)
  }

  /** `$lte` compares values of one type only, and an array also by its items. */
  predicate NotNewer(v: Value, ts: Value) {
    SameTypeAtMost(v, ts) || (v.Arr? && exists i :: 0 <= i < |v.items| && SameTypeAtMost(v.items[i], ts))
  }

  predicate GuardAdmits(d: Doc, guard: Option<Value>) {
    guard.Some? && "_ts" in d ==> NotNewer(d["_ts"], guard.value)
  }

  /** A guard with a later number admits all that one with an earlier number does. */
  lemma LaterAdmitsMore(d: Doc, t: int, u: int)
    requires t <= u && GuardAdmits(d, Some(Num(t)))
    ensures GuardAdmits(d, Some(Num(u)))
  {
    if "_ts" in d && !SameTypeAtMost(d["_ts"], Num(t)) {
      var items := d["_ts"].items;
      var i :| 0 <= i < |items| && SameTypeAtMost(items[i], Num(t));
      assert SameTypeAtMost(items[i], Num(u));
    }
  }

  // --- Update operators ---------------------------------------------------------------

  function Field(d: Doc, f: string): Option<Value> {
    if f in d then Some(d[f]) else None
  }

  /** `$max`, in the order of all values. */
  function MaxOf(was: Option<Value>, v: Value): Value {
    if was.None? || !AtMost(v, was.value) then v else was.value
  }

  predicate CanInc(was: Option<Value>, delta: Value) {
    delta.Num? && (was.Some? ==> was.value.Num?)
  }

  function IncOf(was: Option<Value>, delta: Value): Value
    requires CanInc(was, delta)
  {
    if was.None? then delta else Num(was.value.n + delta.n)
  }

  predicate CanAppend(was: Option<Value>) {
    was.Some? ==> was.value.Arr?
  }

  function ItemsOf(was: Option<Value>): seq<Value>
    requires CanAppend(was)
  {
    if was.None? then [] else was.value.items
  }

  function AddAll(items: seq<Value>, more: seq<Value>): seq<Value>
    decreases |more|
  {
    if more == [] then items
    else AddAll(if more[0] in items then items else items + [more[0]], more[1..])
  }

  /** No field is named by two operators. */
  predicate ConflictFree(u: Update) {
    && u.sets.Keys !! u.unsets !! u.setsOnInsert.Keys !! u.maxes.Keys !! u.incs.Keys !! u.pushes.Keys !! u.adds.Keys
  }

  predicate Applicable(d: Doc, u: Update) {
    && ConflictFree(u)
    && (forall f :: f in u.incs ==> CanInc(Field(d, f), u.incs[f]))
    && (forall f :: f in u.pushes ==> CanAppend(Field(d, f)))
    && (forall f :: f in u.adds ==> CanAppend(Field(d, f)))
  }

  function ApplyUpdate(d: Doc, u: Update, inserting: bool): Doc
    requires Applicable(d, u)
  {
    (d + (if inserting then u.setsOnInsert else map[]) + u.sets
     + (map f | f in u.maxes :: MaxOf(Field(d, f), u.maxes[f]))
     + (map f | f in u.incs :: IncOf(Field(d, f), u.incs[f]))
     + (map f | f in u.pushes :: Arr(ItemsOf(Field(d, f)) + u.pushes[f]))
     + (map f | f in u.adds :: Arr(AddAll(ItemsOf(Field(d, f)), u.adds[f]))))
    - u.unsets
  }

  /** With only $set and $unset, an update overlays the document. */
  lemma PlainUpdate(d: Doc, u: Update, inserting: bool)
    requires u == NO_UPDATE.(sets := u.sets, unsets := u.unsets) && u.sets.Keys !! u.unsets
    ensures Applicable(d, u) && ApplyUpdate(d, u, inserting) == (d + u.sets) - u.unsets
  {
  }

  /** With only $setOnInsert, an update of an existing document changes nothing. */
  lemma InsertOnlyUpdate(d: Doc, u: Update, inserting: bool)
    requires u == NO_UPDATE.(setsOnInsert := u.setsOnInsert)
    ensures Applicable(d, u) && ApplyUpdate(d, u, inserting) == if inserting then d + u.setsOnInsert else d
  {
  }

  /** What an applied update leaves in each field. */
  lemma UpdatedField(d: Doc, u: Update, inserting: bool, f: string)
    requires Applicable(d, u)
    ensures Field(ApplyUpdate(d, u, inserting), f) ==
            if f in u.unsets then None
            else if f in u.adds then Some(Arr(AddAll(ItemsOf(Field(d, f)), u.adds[f])))
            else if f in u.pushes then Some(Arr(ItemsOf(Field(d, f)) + u.pushes[f]))
            else if f in u.incs then Some(IncOf(Field(d, f), u.incs[f]))
            else if f in u.maxes then Some(MaxOf(Field(d, f), u.maxes[f]))
            else if f in u.sets then Some(u.sets[f])
            else if inserting && f in u.setsOnInsert then Some(u.setsOnInsert[f])
            else Field(d, f)
  {
  }

  // --- One write on the document with its key --------------------------------------------

  datatype Written = Written(doc: Option<Doc>, error: Option<WriteError>)

  /** The document an upsert starts from when none matches and none exists. */
  function Seed(f: Filter): Doc {
    map[f.field := f.key]
  }

  function WriteDoc(cur: Option<Doc>, m: WriteModel): Written {
    match m
    case DeleteOne(_) => Written(None, None)
    case UpdateOne(f, u) =>
      if cur.Some? && !GuardAdmits(cur.value, f.guard) then Written(cur, Some(DuplicateKey))
      else
        var from := if cur.Some? then cur.value else Seed(f);
        if Applicable(from, u) then Written(Some(ApplyUpdate(from, u, cur.None?)), None)
        else Written(cur, Some(BadUpdate))
    case ReplaceOne(f, r) =>
      if cur.Some? && !GuardAdmits(cur.value, f.guard) then Written(cur, Some(DuplicateKey))
      else Written(Some(r), None)
  }

  // --- Writes on a collection ---------------------------------------------------------------

  function At(c: Coll, k: Value): Option<Doc> {
    if k in c then Some(c[k]) else None
  }

  function Put(c: Coll, k: Value, d: Option<Doc>): Coll {
    match d
    case None => c - {k}
    case Some(doc) => c[k := doc]
  }

  function Write(c: Coll, m: WriteModel): Coll {
    Put(c, m.filter.key, WriteDoc(At(c, m.filter.key), m).doc)
  }

  /** All the models in order, each failing write skipped. */
  function WriteAll(c: Coll, ms: seq<WriteModel>): Coll
    decreases |ms|
  {
    if ms == [] then c else WriteAll(Write(c, ms[0]), ms[1..])
  }

  /** The same run seen at one key. */
  function RunAt(k: Value, cur: Option<Doc>, ms: seq<WriteModel>): Option<Doc>
    decreases |ms|
  {
    if ms == [] then cur
    else RunAt(k, if ms[0].filter.key == k then WriteDoc(cur, ms[0]).doc else cur, ms[1..])
  }

  lemma {:induction false} WriteAllAt(c: Coll, ms: seq<WriteModel>, k: Value)
    ensures At(WriteAll(c, ms), k) == RunAt(k, At(c, k), ms)
    decreases |ms|
  {
    if ms != [] {
      WriteAllAt(Write(c, ms[0]), ms[1..], k);
    }
  }

  lemma {:induction false} RunAtSplit(k: Value, cur: Option<Doc>, a: seq<WriteModel>, b: seq<WriteModel>)
    ensures RunAt(k, cur, a + b) == RunAt(k, RunAt(k, cur, a), b)
    decreases |a|
  {
    if a == [] {
      assert a + b == b;
    } else {
      assert (a + b)[1..] == a[1..] + b;
      RunAtSplit(k, if a[0].filter.key == k then WriteDoc(cur, a[0]).doc else cur, a[1..], b);
    }
  }

  lemma {:induction false} WriteAllSplit(c: Coll, a: seq<WriteModel>, b: seq<WriteModel>)
    ensures WriteAll(c, a + b) == WriteAll(WriteAll(c, a), b)
    decreases |a|
  {
    if a == [] {
      assert a + b == b;
    } else {
      assert (a + b)[1..] == a[1..] + b;
      WriteAllSplit(Write(c, a[0]), a[1..], b);
    }
  }

  /** Collections that agree at every key are equal. */
  lemma SameEverywhere(c: Coll, c': Coll)
    requires forall k :: At(c, k) == At(c', k)
    ensures c == c'
  {
    assert forall k :: k in c <==> At(c, k).Some?;
    assert forall k :: k in c' <==> At(c', k).Some?;
    assert c.Keys == c'.Keys;
    forall k | k in c ensures c[k] == c'[k] {
      assert At(c, k) == At(c', k);
    }
  }
}
