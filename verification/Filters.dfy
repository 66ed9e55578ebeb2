/** Reporting filters: which records they keep, how a configuration document carries one, and the holder
    that swaps them (internal/parser/filter/filter.go, holder.go, internal/parser/parser.go,
    internal/cfgsync/filter.go, registry.go). */
module Filters {
  import opened Wrappers

  /** A configuration value as the driver decodes it; both document forms are one. */
  datatype Bson = Null | Num(n: int) | Str(s: string) | Arr(items: seq<Bson>) | Sub(fields: map<string, Bson>)

  type Doc = map<string, Bson>

  /** A compiled filter, named by the source of its rules. */
  datatype Filter = Filter(includes: seq<string>, excludes: seq<string>)

  /** What running one rule on one record gives. */
  datatype Verdict = Matches | Misses | Fails

  // --- Keeping records ----------------------------------------------------------------------

  /** Where the first matching rule is, or the length if there is none. */
  function FirstMatch<R>(rules: seq<string>, rec: R, eval: (string, R) -> Verdict): (i: nat)
    ensures i <= |rules|
    ensures forall j :: 0 <= j < i ==> !eval(rules[j], rec).Matches?
    ensures i < |rules| ==> eval(rules[i], rec).Matches?
  {
    if rules == [] || eval(rules[0], rec).Matches? then 0 else 1 + FirstMatch(rules[1..], rec, eval)
  }

  predicate AnyMatches<R>(rules: seq<string>, rec: R, eval: (string, R) -> Verdict) {
    exists i :: 0 <= i < |rules| && eval(rules[i], rec).Matches?
  }

  /** A rule that fails to evaluate counts as not matched; no filter keeps everything. */
  predicate Kept<R>(f: Option<Filter>, rec: R, eval: (string, R) -> Verdict) {
    f.Some? ==>
      && (f.value.includes == [] || AnyMatches(f.value.includes, rec, eval))
      && !AnyMatches(f.value.excludes, rec, eval)
  }

  /** Some rule that Keep runs, before the first match of its list, fails. */
  predicate SomeRunFails<R>(rules: seq<string>, rec: R, eval: (string, R) -> Verdict) {
    exists i :: 0 <= i < FirstMatch(rules, rec, eval) && eval(rules[i], rec).Fails?
  }

  method Keep<R>(f: Option<Filter>, rec: R, eval: (string, R) -> Verdict) returns (keep: bool, failed: bool)
    ensures keep <==> Kept(f, rec, eval)
    ensures failed <==> f.Some? && (SomeRunFails(f.value.includes, rec, eval)
                                    || ((f.value.includes == [] || AnyMatches(f.value.includes, rec, eval))
                                        && SomeRunFails(f.value.excludes, rec, eval)))
  {
    if f.None? {
      return true, false;
    }
    failed := false;
    var rules := f.value.includes;
    if |rules| > 0 {
      var matched := false;
      var i := 0;
      while i < |rules| && !matched
        invariant 0 <= i <= FirstMatch(rules, rec, eval)
        invariant matched ==> i < |rules| && eval(rules[i], rec).Matches?
        invariant failed <==> exists j :: 0 <= j < i && eval(rules[j], rec).Fails?
        decreases |rules| - i, if matched then 0 else 1
      {
        var ok := eval(rules[i], rec);
        if ok.Fails? {
          failed := true;
          i := i + 1;
        } else if ok.Matches? {
          matched := true;
        } else {
          i := i + 1;
        }
      }
      if !matched {
        return false, failed;
      }
    }
    ghost var failedBefore := failed;
    rules := f.value.excludes;
    for i := 0 to |rules|
      invariant i <= FirstMatch(rules, rec, eval)
      invariant failed <==> failedBefore || exists j :: 0 <= j < i && eval(rules[j], rec).Fails?
    {
      var ok := eval(rules[i], rec);
      if ok.Fails? {
        failed := true;
      } else if ok.Matches? {
        return false, failed;
      }
    }
    return true, failed;
  }

  predicate IsEmpty(f: Option<Filter>) {
    f.None? || (f.value.includes == [] && f.value.excludes == [])
  }

  lemma EmptyKeepsAll<R>(f: Option<Filter>, rec: R, eval: (string, R) -> Verdict)
    requires IsEmpty(f)
    ensures Kept(f, rec, eval)
  {
  }

  // --- The filter a document carries ------------------------------------------------------------

  predicate AllStrings(items: seq<Bson>) {
    forall i :: 0 <= i < |items| ==> items[i].Str?
  }

  /** A missing or null field is an empty list; anything but an array of strings is an error. */
  function Rules(v: Option<Bson>): Result<seq<string>> {
    match v
    case None => Ok([])
    case Some(Null) => Ok([])
    case Some(Arr(items)) =>
      if AllStrings(items) then Ok(seq(|items|, i requires 0 <= i < |items| => items[i].s)) else Err
    case Some(_) => Err
  }

  /** An array of strings is its strings, in order; no field and null are none; nothing else is accepted. */
  lemma RulesMean(v: Option<Bson>)
    ensures Rules(v).Ok? <==> v.None? || v.value.Null? || (v.value.Arr? && forall x :: x in v.value.items ==> x.Str?)
    ensures Rules(v).Ok? ==>
              if v.None? || v.value.Null? then Rules(v).value == []
              else |Rules(v).value| == |v.value.items|
                   && forall i :: 0 <= i < |v.value.items| ==> v.value.items[i] == Str(Rules(v).value[i])
  {
    if v.Some? && v.value.Arr? {
      assert (forall x :: x in v.value.items ==> x.Str?) <==> AllStrings(v.value.items);
    }
  }

  method ToStringSlice(v: Option<Bson>) returns (r: Result<seq<string>>)
    ensures r == Rules(v)
  {
    match v {
      case None => return Ok([]);
      case Some(Null) => return Ok([]);
      case Some(Arr(items)) =>
        var out := [];
        for i := 0 to |items|
          invariant |out| == i
          invariant forall j :: 0 <= j < i ==> items[j] == Str(out[j])
        {
          if !items[i].Str? {
            return Err;
          }
          out := out + [items[i].s];
        }
        assert out == Rules(v).value;
        return Ok(out);
      case Some(_) => return Err;
    }
  }

  function Lookup(d: Doc, key: string): Option<Bson> {
    if key in d then Some(d[key]) else None
  }

  predicate AllCompile(f: Filter, compiles: string -> bool) {
    && (forall i :: 0 <= i < |f.includes| ==> compiles(f.includes[i]))
    && (forall i :: 0 <= i < |f.excludes| ==> compiles(f.excludes[i]))
  }

  /** The filter a `filter` subtree describes, if it is well formed and every rule compiles. */
  function FilterIn(sub: Doc, compiles: string -> bool): Option<Filter> {
    var includes, excludes := Rules(Lookup(sub, "include")), Rules(Lookup(sub, "exclude"));
    if includes.Err? || excludes.Err? then None
    else
      var f := Filter(includes.value, excludes.value);
      if AllCompile(f, compiles) then Some(f) else None
  }

  function AsSubDocument(v: Bson): Result<Doc> {
    if v.Sub? then Ok(v.fields) else Err
  }

  /** The filter a whole document carries. */
  function FilterOf(doc: Doc, compiles: string -> bool): Option<Filter> {
    if "filter" in doc && doc["filter"].Sub? then FilterIn(doc["filter"].fields, compiles) else None
  }

  // --- Swapping it in ---------------------------------------------------------------------------------

  /** The parser's filter holder. */
  class Parser {
    var live: Option<Filter>

    constructor (f: Option<Filter>)
      ensures live == f
    {
      live := f;
    }

    /** Compiles, and only if every rule compiles swaps the filter in. */
    method SwapFilter(includes: seq<string>, excludes: seq<string>, compiles: string -> bool) returns (ok: bool)
      modifies this
      ensures ok <==> AllCompile(Filter(includes, excludes), compiles)
      ensures live == if ok then Some(Filter(includes, excludes)) else old(live)
    {
      ok := CompileAll(includes, compiles);
      if ok {
        ok := CompileAll(excludes, compiles);
      }
      if ok {
        live := Some(Filter(includes, excludes));
      }
    }
  }

  method CompileAll(rules: seq<string>, compiles: string -> bool) returns (ok: bool)
    ensures ok <==> forall i :: 0 <= i < |rules| ==> compiles(rules[i])
  {
    for i := 0 to |rules|
      invariant forall j :: 0 <= j < i ==> compiles(rules[j])
    {
      if !compiles(rules[i]) {
        return false;
      }
    }
    return true;
  }

  // --- The allowlist -----------------------------------------------------------------------------------

  predicate Reserved(key: string) {
    key == "_id" || key == "version"
  }

  /** Some field is neither reserved nor the filter. */
  predicate HasStray(doc: Doc) {
    exists k :: k in doc && !Reserved(k) && k != "filter"
  }

  /** Whether applying a document reports no error. */
  predicate AppliesCleanly(doc: Doc, compiles: string -> bool) {
    !HasStray(doc) && ("filter" in doc ==> FilterOf(doc, compiles).Some?)
  }

  /** That is: beside `_id` and `version` it has nothing but a filter, and that is good. */
  lemma CleanlyIff(doc: Doc, compiles: string -> bool)
    ensures AppliesCleanly(doc, compiles) <==>
            doc.Keys - {"_id", "version"} <= {"filter"} && ("filter" in doc ==> FilterOf(doc, compiles).Some?)
  {
    hide FilterOf;
    if k :| k in doc && !Reserved(k) && k != "filter" {
      assert k in doc.Keys - {"_id", "version"};
    }
  }

  /** The live filter after applying a document. */
  function Applied(live: Option<Filter>, doc: Doc, compiles: string -> bool): Option<Filter> {
    if FilterOf(doc, compiles).Some? then FilterOf(doc, compiles) else live
  }

  /** The allowlist of subtrees; the filter's is the one applier the program registers. */
  class Registry {
    var appliers: map<string, Parser>

    ghost predicate Valid()
      reads this
    {
      appliers.Keys <= {"filter"}
    }

    constructor ()
      ensures Valid() && appliers == map[]
    {
      appliers := map[];
    }

    method RegisterFilter(p: Parser)
      requires Valid()
      modifies this
      ensures Valid() && appliers == map["filter" := p]
    {
      appliers := appliers["filter" := p];
    }

    /** Routes every field to its applier, in any order, and reports the first error after trying the rest. */
    method Apply(doc: Doc, compiles: string -> bool) returns (ok: bool)
      requires Valid() && "filter" in appliers
      modifies appliers["filter"]
      ensures ok <==> AppliesCleanly(doc, compiles)
      ensures appliers["filter"].live == Applied(old(appliers["filter"].live), doc, compiles)
    {
      ok := true;
      var rest := doc.Keys;
      while rest != {}
        invariant rest <= doc.Keys
        invariant ok <==> AppliesCleanly(Done(doc, rest), compiles)
        invariant appliers["filter"].live == Applied(old(appliers["filter"].live), Done(doc, rest), compiles)
        decreases |rest|
      {
        var key :| key in rest;
        ghost var done := Done(doc, rest);
        rest := rest - {key};
        assert Done(doc, rest) == done[key := doc[key]];
        DoneStep(done, key, doc[key], compiles);
        if Reserved(key) {
          continue;
        }
        if key !in appliers {
          ok := false;
          continue;
        }
        var sub := AsSubDocument(doc[key]);
        if sub.Err? {
          ok := false;
          continue;
        }
        var applied := ApplyFilter(appliers[key], sub.value, compiles);
        if !applied {
          ok := false;
        }
      }
      assert Done(doc, rest) == doc;
    }
  }

  /** The fields already handled. */
  ghost function Done(doc: Doc, rest: set<string>): Doc {
    map k | k in doc && k !in rest :: doc[k]
  }

  lemma DoneStep(done: Doc, key: string, v: Bson, compiles: string -> bool)
    requires key !in done
    ensures Reserved(key) ==> (AppliesCleanly(done[key := v], compiles) <==> AppliesCleanly(done, compiles))
    ensures !Reserved(key) && key != "filter" ==> !AppliesCleanly(done[key := v], compiles)
    ensures key != "filter" ==> FilterOf(done[key := v], compiles) == FilterOf(done, compiles)
    ensures key == "filter" ==>
              FilterOf(done, compiles) == None
              && FilterOf(done[key := v], compiles) == (if v.Sub? then FilterIn(v.fields, compiles) else None)
              && (AppliesCleanly(done[key := v], compiles) <==>
                  AppliesCleanly(done, compiles) && FilterOf(done[key := v], compiles).Some?)
  {
    hide FilterIn;
    var more := done[key := v];
    if HasStray(done) {
      var k :| k in done && !Reserved(k) && k != "filter";
      assert k in more;
    }
    if HasStray(more) {
      var k :| k in more && !Reserved(k) && k != "filter";
      assert k == key || k in done;
    }
    if !Reserved(key) && key != "filter" {
      assert key in more;
    }
  }

  /** The applier of the `filter` subtree. */
  method ApplyFilter(p: Parser, sub: Doc, compiles: string -> bool) returns (ok: bool)
    modifies p
    ensures ok <==> FilterIn(sub, compiles).Some?
    ensures p.live == if ok then FilterIn(sub, compiles) else old(p.live)
  {
    var includes := ToStringSlice(Lookup(sub, "include"));
    if includes.Err? {
      return false;
    }
    var excludes := ToStringSlice(Lookup(sub, "exclude"));
    if excludes.Err? {
      return false;
    }
    ok := p.SwapFilter(includes.value, excludes.value, compiles);
  }
}
