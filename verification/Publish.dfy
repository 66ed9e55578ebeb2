/** Publishing a configuration document: the gate, the rule-aware merge and the union of rule lists
    (internal/cfgsync/publish.go:184-289). */
module Publish {
  import opened Wrappers
  import opened Filters

  // --- Rule lists --------------------------------------------------------------------------

  /** The added rules that are not in `seen`, each once, in order. */
  function Novel(seen: seq<string>, added: seq<string>): seq<string>
    decreases |added|
  {
    if added == [] then []
    else if added[0] in seen then Novel(seen, added[1..])
    else [added[0]] + Novel(seen + [added[0]], added[1..])
  }

  function Union(stored: seq<string>, added: seq<string>): seq<string> {
    stored + Novel(stored, added)
  }

  method UnionRules(stored: seq<string>, added: seq<string>) returns (out: seq<string>)
    ensures out == Union(stored, added)
  {
    var seen: set<string> := {};
    out := [];
    for i := 0 to |stored|
      invariant out == stored[..i] && seen == set r | r in stored[..i]
    {
      assert stored[..i + 1] == stored[..i] + [stored[i]];
      seen := seen + {stored[i]};
      out := out + [stored[i]];
    }
    assert out == stored;
    for i := 0 to |added|
      invariant seen == set r | r in out
      invariant out + Novel(out, added[i..]) == Union(stored, added)
    {
      var r := added[i];
      assert added[i..][1..] == added[i + 1..];
      if r in seen {
        continue;
      }
      assert (out + [r]) + Novel(out + [r], added[i + 1..]) == out + Novel(out, added[i..]);
      seen := seen + {r};
      out := out + [r];
    }
  }

  predicate Distinct(rules: seq<string>) {
    forall i, j :: 0 <= i < j < |rules| ==> rules[i] != rules[j]
  }

  lemma {:induction false} NovelMeans(seen: seq<string>, added: seq<string>)
    ensures forall r :: r in Novel(seen, added) <==> r in added && r !in seen
    ensures Distinct(Novel(seen, added))
    decreases |added|
  {
    if added != [] {
      var x, rest := added[0], added[1..];
      assert forall r :: r in added <==> r == x || r in rest;
      if x in seen {
        NovelMeans(seen, rest);
      } else {
        NovelMeans(seen + [x], rest);
        var more := Novel(seen + [x], rest);
        assert Novel(seen, added) == [x] + more;
        assert x !in more;
        assert forall r :: r in seen + [x] <==> r == x || r in seen;
        assert forall r :: r in [x] + more <==> r == x || r in more;
      }
    }
  }

  /** The union keeps the stored rules first and in order, has exactly the rules of both, and adds no
      duplicate. */
  lemma UnionMeans(stored: seq<string>, added: seq<string>)
    ensures stored <= Union(stored, added)
    ensures forall r :: r in Union(stored, added) <==> r in stored || r in added
    ensures Distinct(stored) ==> Distinct(Union(stored, added))
  {
    NovelMeans(stored, added);
    var more := Novel(stored, added);
    hide Novel;
    forall i | 0 <= i < |more| ensures more[i] !in stored {
      assert more[i] in more;
    }
  }

  /** Publishing the same rules again adds nothing. */
  lemma {:induction false} UnionAbsorbs(stored: seq<string>, added: seq<string>)
    requires forall r :: r in added ==> r in stored
    ensures Union(stored, added) == stored
    decreases |added|
  {
    if added != [] {
      assert added[0] in added;
      UnionAbsorbs(stored, added[1..]);
    }
  }

  lemma UnionTwice(stored: seq<string>, added: seq<string>)
    ensures Union(Union(stored, added), added) == Union(stored, added)
  {
    UnionMeans(stored, added);
    UnionAbsorbs(Union(stored, added), added);
  }

  // --- The gate ------------------------------------------------------------------------------------

  function Stripped(doc: Doc): Doc {
    map k | k in doc && !Reserved(k) :: doc[k]
  }

  /** The document the gate lets through, without the fields the store owns. */
  function Gate(doc: Doc, compiles: string -> bool): Result<Doc> {
    if Stripped(doc) == map[] || !AppliesCleanly(Stripped(doc), compiles) then Err else Ok(Stripped(doc))
  }

  /** A dry run of the appliers against a throwaway parser. */
  method ValidatePublishDoc(doc: Doc, compiles: string -> bool) returns (r: Result<Doc>)
    ensures r == Gate(doc, compiles)
  {
    if |doc| == 0 {
      assert doc == map[];
      return Err;
    }
    var fields := map[];
    var rest := doc.Keys;
    while rest != {}
      invariant rest <= doc.Keys
      invariant fields == map k | k in doc && k !in rest && !Reserved(k) :: doc[k]
      decreases |rest|
    {
      var k :| k in rest;
      rest := rest - {k};
      if Reserved(k) {
        continue;
      }
      fields := fields[k := doc[k]];
    }
    assert fields == Stripped(doc);
    if |fields| == 0 {
      assert fields == map[];
      return Err;
    }
    assert fields != map[] by { assert |fields| != 0; }
    var registry := new Registry();
    var throwaway := new Parser(None);
    registry.RegisterFilter(throwaway);
    var ok := registry.Apply(fields, compiles);
    return if ok then Ok(fields) else Err;
  }

  /** The store's own fields are `_id` and `version`, and no other. */
  lemma StrippedFields(doc: Doc)
    ensures Stripped(doc) == doc - {"_id", "version"}
  {
  }

  /** What the gate lets through is exactly one good filter and nothing else. */
  lemma GateMeans(doc: Doc, compiles: string -> bool)
    ensures Gate(doc, compiles).Ok? <==>
            Stripped(doc).Keys == {"filter"} && FilterOf(Stripped(doc), compiles).Some?
    ensures Gate(doc, compiles).Ok? ==>
              Gate(doc, compiles).value == map["filter" := doc["filter"]]
              && FilterOf(doc, compiles) == FilterOf(Stripped(doc), compiles)
  {
    var d := Stripped(doc);
    hide FilterIn;
    if d.Keys == {"filter"} {
      assert "filter" in d && d != map[];
    }
    if d != map[] && !HasStray(d) {
      var k :| k in d;
      assert k == "filter";
      assert d.Keys == {"filter"};
    }
    if d.Keys == {"filter"} {
      assert d == map["filter" := doc["filter"]];
    }
  }

  // --- The merge ------------------------------------------------------------------------------------

  /** One side of the merged filter: an omitted side keeps what is stored. */
  function MergeSide(stored: Doc, delta: Doc, side: string): Result<Option<Bson>> {
    if side !in delta then Ok(Lookup(stored, side))
    else
      var added, was := Rules(Lookup(delta, side)), Rules(Lookup(stored, side));
      if added.Err? || was.Err? then Err else Ok(Some(OfRules(Union(was.value, added.value))))
  }

  function OfRules(rules: seq<string>): Bson {
    Arr(seq(|rules|, i requires 0 <= i < |rules| => Str(rules[i])))
  }

  function WithField(d: Doc, k: string, v: Option<Bson>): Doc {
    if v.Some? then d[k := v.value] else d
  }

  /** The two sides merged; whatever else the stored filter holds stays, whatever else the delta's holds is
      dropped. */
  function MergeFilter(stored: Doc, delta: Doc): Result<Doc> {
    var inc, exc := MergeSide(stored, delta, "include"), MergeSide(stored, delta, "exclude");
    if inc.Err? || exc.Err? then Err
    else Ok(WithField(WithField(stored, "include", inc.value), "exclude", exc.value))
  }

  /** The filter field of the merged document, when both documents have one. */
  function MergeField(stored: Bson, delta: Bson): Result<Bson> {
    if !stored.Sub? || !delta.Sub? then Err
    else
      var m := MergeFilter(stored.fields, delta.fields);
      if m.Err? then Err else Ok(Sub(m.value))
  }

  /** The merged document: every other field of the delta replaces the stored one. */
  function Merge(cur: Doc, delta: Doc): Result<Doc> {
    var both := Stripped(cur) + Stripped(delta);
    if "filter" !in cur || "filter" !in delta then Ok(both)
    else
      var f := MergeField(cur["filter"], delta["filter"]);
      if f.Err? then Err else Ok(both["filter" := f.value])
  }

  method MergePublishDocs(cur: Doc, delta: Doc) returns (r: Result<Doc>)
    ensures r == Merge(cur, delta)
  {
    var merged := map[];
    var rest := cur.Keys;
    while rest != {}
      invariant rest <= cur.Keys
      invariant merged == map k | k in cur && k !in rest && !Reserved(k) :: cur[k]
      decreases |rest|
    {
      var k :| k in rest;
      rest := rest - {k};
      if Reserved(k) {
        continue;
      }
      merged := merged[k := cur[k]];
    }
    assert merged == Stripped(cur);
    rest := delta.Keys;
    assert Done(delta, rest) == map[];
    MergeNothing(cur);
    hide MergeField;
    while rest != {}
      invariant rest <= delta.Keys
      invariant Merge(cur, Done(delta, rest)) == Ok(merged)
      decreases |rest|
    {
      var k :| k in rest;
      ghost var done := Done(delta, rest);
      rest := rest - {k};
      assert Done(delta, rest) == done[k := delta[k]];
      MergeStep(cur, done, k, delta[k]);
      if Reserved(k) {
        continue;
      }
      if k != "filter" || k !in merged {
        merged := merged[k := delta[k]];
        continue;
      }
      var field := MergeSub(merged[k], delta[k]);
      if field.Err? {
        MergeRefuses(cur, delta);
        return Err;
      }
      merged := merged[k := field.value];
    }
    assert Done(delta, rest) == delta;
    return Ok(merged);
  }

  lemma MergeStep(cur: Doc, done: Doc, k: string, v: Bson)
    requires k !in done && Merge(cur, done).Ok?
    ensures var m := Merge(cur, done).value;
            && (Reserved(k) ==> Merge(cur, done[k := v]) == Ok(m))
            && (!Reserved(k) && (k != "filter" || k !in m) ==> Merge(cur, done[k := v]) == Ok(m[k := v]))
            && (k == "filter" ==> (k in m <==> k in cur) && (k in m ==> m[k] == cur[k]))
            && (k == "filter" && k in m ==>
                  Merge(cur, done[k := v]) ==
                  (var f := MergeField(m[k], v); if f.Err? then Err else Ok(m[k := f.value])))
  {
    hide MergeField;
    var m, more := Merge(cur, done).value, done[k := v];
    if Reserved(k) {
      assert Stripped(more) == Stripped(done);
    } else {
      assert Stripped(more) == Stripped(done)[k := v];
      assert Stripped(cur) + Stripped(more) == (Stripped(cur) + Stripped(done))[k := v];
      if k != "filter" && "filter" in cur && "filter" in done {
        var b := Stripped(cur) + Stripped(done);
        var f := MergeField(cur["filter"], done["filter"]);
        assert b["filter" := f.value][k := v] == b[k := v]["filter" := f.value];
      }
      if k == "filter" && "filter" in cur {
        var b, f := Stripped(cur) + Stripped(done), MergeField(cur["filter"], v);
        if f.Ok? {
          assert b[k := v][k := f.value] == b[k := f.value];
        }
      }
    }
  }

  lemma MergeNothing(cur: Doc)
    ensures Merge(cur, map[]) == Ok(Stripped(cur))
  {
    var nothing: Doc := map[];
    assert Stripped(nothing) == map[];
    assert Stripped(cur) + nothing == Stripped(cur);
  }

  lemma MergeRefuses(cur: Doc, delta: Doc)
    requires "filter" in cur && "filter" in delta && MergeField(cur["filter"], delta["filter"]).Err?
    ensures Merge(cur, delta).Err?
  {
  }

  method MergeSub(stored: Bson, delta: Bson) returns (r: Result<Bson>)
    ensures r == MergeField(stored, delta)
  {
    var storedSub, deltaSub := AsSubDocument(stored), AsSubDocument(delta);
    if storedSub.Err? || deltaSub.Err? {
      return Err;
    }
    var mergedSub := storedSub.value;
    var sides := ["include", "exclude"];
    for i := 0 to |sides|
      invariant mergedSub == MergedUpTo(storedSub.value, deltaSub.value, i)
      invariant forall j :: 0 <= j < i ==> MergeSide(storedSub.value, deltaSub.value, sides[j]).Ok?
    {
      var side := sides[i];
      assert Lookup(mergedSub, side) == Lookup(storedSub.value, side);
      if side !in deltaSub.value {
        continue;
      }
      var newRules := ToStringSlice(Lookup(deltaSub.value, side));
      if newRules.Err? {
        return Err;
      }
      var oldRules := ToStringSlice(Lookup(mergedSub, side));
      if oldRules.Err? {
        return Err;
      }
      var union := UnionRules(oldRules.value, newRules.value);
      mergedSub := mergedSub[side := OfRules(union)];
    }
    if "include" !in deltaSub.value {
      OmittedStays(storedSub.value, "include");
    }
    if "exclude" !in deltaSub.value {
      assert Lookup(mergedSub, "exclude") == Lookup(storedSub.value, "exclude");
      OmittedStays(mergedSub, "exclude");
    }
    assert sides[0] == "include" && sides[1] == "exclude";
    return Ok(Sub(mergedSub));
  }

  lemma OmittedStays(stored: Doc, side: string)
    ensures WithField(stored, side, Lookup(stored, side)) == stored
  {
  }

  ghost function MergedUpTo(stored: Doc, delta: Doc, i: nat): Doc
    requires i <= 2
  {
    var inc, exc := MergeSide(stored, delta, "include"), MergeSide(stored, delta, "exclude");
    var one := if i > 0 && inc.Ok? && "include" in delta then WithField(stored, "include", inc.value) else stored;
    if i > 1 && exc.Ok? && "exclude" in delta then WithField(one, "exclude", exc.value) else one
  }

  // --- What a merge does to the filter ------------------------------------------------------------------

  /** The rule list a document's filter has on one side. */
  function Side(doc: Doc, side: string): Result<seq<string>> {
    if "filter" in doc && doc["filter"].Sub? then Rules(Lookup(doc["filter"].fields, side)) else Err
  }

  /** Merging a good delta into a good document never fails, gives a good document, and joins each side's
      rules: stored first, an omitted side as it was. */
  lemma MergeJoins(cur: Doc, delta: Doc, compiles: string -> bool)
    requires FilterOf(cur, compiles).Some? && FilterOf(delta, compiles).Some?
    ensures Merge(cur, delta).Ok?
    ensures var m := Merge(cur, delta).value;
            && FilterOf(m, compiles) == Some(Filter(
                 Union(Side(cur, "include").value, Side(delta, "include").value),
                 Union(Side(cur, "exclude").value, Side(delta, "exclude").value)))
            && (!HasStray(cur) && !HasStray(delta) ==> m.Keys == {"filter"})
  {
    hide FilterIn, Merge, Union, Rules, HasStray;
    FiltersJoin(cur["filter"].fields, delta["filter"].fields, compiles);
    MergedFilter(cur, delta);
    if !HasStray(cur) && !HasStray(delta) {
      MergedKeys(cur, delta);
    }
  }

  /** A merge, when it is not refused: no reserved field; of the others, the delta's replaces the stored one; and of
      two filters, whatever the stored one holds beside the two sides stays. */
  lemma MergeKeepsTheRest(cur: Doc, delta: Doc, k: string)
    requires Merge(cur, delta).Ok?
    ensures var m := Merge(cur, delta).value;
            && (k != "filter" || k !in cur || k !in delta ==>
                  Lookup(m, k) == if Reserved(k) then None else if k in delta then Some(delta[k]) else Lookup(cur, k))
            && ("filter" in cur && "filter" in delta ==>
                  && "filter" in m && m["filter"].Sub? && cur["filter"].Sub? && delta["filter"].Sub?
                  && (k != "include" && k != "exclude" ==>
                        Lookup(m["filter"].fields, k) == Lookup(cur["filter"].fields, k))
                  && (k !in delta["filter"].fields ==>
                        Lookup(m["filter"].fields, k) == Lookup(cur["filter"].fields, k)))
  {
    hide Union, Rules;
  }

  lemma MergedFilter(cur: Doc, delta: Doc)
    requires "filter" in cur && cur["filter"].Sub? && "filter" in delta && delta["filter"].Sub?
    requires MergeFilter(cur["filter"].fields, delta["filter"].fields).Ok?
    ensures Merge(cur, delta).Ok? && "filter" in Merge(cur, delta).value
    ensures Merge(cur, delta).value["filter"] == Sub(MergeFilter(cur["filter"].fields, delta["filter"].fields).value)
  {
    hide MergeFilter, Stripped;
  }

  lemma MergedKeys(cur: Doc, delta: Doc)
    requires "filter" in cur && "filter" in delta && !HasStray(cur) && !HasStray(delta) && Merge(cur, delta).Ok?
    ensures Merge(cur, delta).value.Keys == {"filter"}
  {
    hide MergeField;
    var m := Merge(cur, delta).value;
    forall k | k in m ensures k == "filter" {
      assert k in cur || k in delta;
    }
  }

  /** Two good filter subtrees merge into a good one, side by side. */
  lemma FiltersJoin(s: Doc, d: Doc, compiles: string -> bool)
    requires FilterIn(s, compiles).Some? && FilterIn(d, compiles).Some?
    ensures MergeFilter(s, d).Ok?
    ensures FilterIn(MergeFilter(s, d).value, compiles) == Some(Filter(
              Union(Rules(Lookup(s, "include")).value, Rules(Lookup(d, "include")).value),
              Union(Rules(Lookup(s, "exclude")).value, Rules(Lookup(d, "exclude")).value)))
  {
    hide Rules, Union, MergeSide, MergeFilter, Lookup;
    SideJoins(s, d, "include");
    SideJoins(s, d, "exclude");
    MergedSides(s, d);
    JoinCompiles(Rules(Lookup(s, "include")).value, Rules(Lookup(d, "include")).value, compiles);
    JoinCompiles(Rules(Lookup(s, "exclude")).value, Rules(Lookup(d, "exclude")).value, compiles);
  }

  lemma MergedSides(s: Doc, d: Doc)
    requires MergeSide(s, d, "include").Ok? && MergeSide(s, d, "exclude").Ok?
    ensures MergeFilter(s, d).Ok?
    ensures Lookup(MergeFilter(s, d).value, "include") == MergeSide(s, d, "include").value
    ensures Lookup(MergeFilter(s, d).value, "exclude") == MergeSide(s, d, "exclude").value
  {
    hide Rules, Union, OfRules;
  }

  lemma JoinCompiles(a: seq<string>, b: seq<string>, compiles: string -> bool)
    requires forall i :: 0 <= i < |a| ==> compiles(a[i])
    requires forall i :: 0 <= i < |b| ==> compiles(b[i])
    ensures forall i :: 0 <= i < |Union(a, b)| ==> compiles(Union(a, b)[i])
  {
    hide Union;
    UnionMeans(a, b);
    UnionCompiles(a, b, Union(a, b), compiles);
  }

  lemma UnionCompiles(a: seq<string>, b: seq<string>, u: seq<string>, compiles: string -> bool)
    requires forall i :: 0 <= i < |a| ==> compiles(a[i])
    requires forall i :: 0 <= i < |b| ==> compiles(b[i])
    requires forall r :: r in u <==> r in a || r in b
    ensures forall i :: 0 <= i < |u| ==> compiles(u[i])
  {
    forall i | 0 <= i < |u| ensures compiles(u[i]) {
      assert u[i] in u;
    }
  }

  lemma SideJoins(stored: Doc, delta: Doc, side: string)
    requires Rules(Lookup(stored, side)).Ok? && Rules(Lookup(delta, side)).Ok?
    ensures MergeSide(stored, delta, side).Ok?
    ensures Rules(MergeSide(stored, delta, side).value) ==
            Ok(Union(Rules(Lookup(stored, side)).value, Rules(Lookup(delta, side)).value))
  {
    var was, added := Rules(Lookup(stored, side)).value, Rules(Lookup(delta, side)).value;
    if side in delta {
      RulesOfRules(Union(was, added));
    } else {
      assert Union(was, []) == was;
    }
  }

  lemma RulesOfRules(rules: seq<string>)
    ensures Rules(Some(OfRules(rules))) == Ok(rules)
  {
    var items := OfRules(rules).items;
    assert AllStrings(items);
    assert Rules(Some(OfRules(rules))).value == rules;
  }
}
