/** The `**` glob matcher over path segments (internal/source/tailer/tailer.go).

    A pattern and a name are sequences of segments.  `**` covers zero or more whole
    segments; every other pattern segment covers exactly one, as decided by the
    segment predicate (the library's single-segment match, left arbitrary here).
 */
module Glob {

  const STAR_STAR := "**"

  type SegmentMatch = (string, string) -> bool

  /** `cover` assigns to each pattern segment the run of name segments it stands for. */
  ghost predicate IsCover(seg: SegmentMatch, pat: seq<string>, name: seq<string>, cover: seq<seq<string>>) {
    && |cover| == |pat|
    && Flatten(cover) == name
    && forall i :: 0 <= i < |pat| ==> SegmentCovers(seg, pat[i], cover[i])
  }

  ghost predicate SegmentCovers(seg: SegmentMatch, p: string, run: seq<string>) {
    p == STAR_STAR || (|run| == 1 && seg(p, run[0]))
  }

  /** The declarative meaning of a match: some cover of the name exists. */
  ghost predicate Matches(seg: SegmentMatch, pat: seq<string>, name: seq<string>) {
    exists cover :: IsCover(seg, pat, name, cover)
  }

  ghost function Flatten<T>(parts: seq<seq<T>>): seq<T> {
    if parts == [] then [] else parts[0] + Flatten(parts[1..])
  }

  // --- How a cover decomposes at its first segment --------------------------

  lemma ConsCover(seg: SegmentMatch, pat: seq<string>, name: seq<string>, k: nat)
    requires |pat| > 0 && k <= |name|
    requires SegmentCovers(seg, pat[0], name[..k])
    requires Matches(seg, pat[1..], name[k..])
    ensures Matches(seg, pat, name)
  {
    var rest :| IsCover(seg, pat[1..], name[k..], rest);
    var cover := [name[..k]] + rest;
    assert cover[1..] == rest;
    assert name == name[..k] + name[k..];
    assert IsCover(seg, pat, name, cover);
  }

  lemma SplitCover(seg: SegmentMatch, pat: seq<string>, name: seq<string>) returns (k: nat)
    requires |pat| > 0
    requires Matches(seg, pat, name)
    ensures k <= |name|
    ensures SegmentCovers(seg, pat[0], name[..k])
    ensures Matches(seg, pat[1..], name[k..])
  {
    var cover :| IsCover(seg, pat, name, cover);
    k := |cover[0]|;
    assert name == cover[0] + Flatten(cover[1..]);
    assert IsCover(seg, pat[1..], name[k..], cover[1..]);
  }

  lemma EmptyPattern(seg: SegmentMatch, name: seq<string>)
    ensures Matches(seg, [], name) <==> name == []
  {
    if name == [] {
      assert IsCover(seg, [], name, []);
    }
  }

  lemma {:induction false} SingleSegment(seg: SegmentMatch, pat: seq<string>, name: seq<string>)
    requires |pat| > 0 && pat[0] != STAR_STAR
    ensures Matches(seg, pat, name) <==>
            |name| > 0 && seg(pat[0], name[0]) && Matches(seg, pat[1..], name[1..])
  {
    if Matches(seg, pat, name) {
      var k := SplitCover(seg, pat, name);
      assert k == 1;
    } else if |name| > 0 && seg(pat[0], name[0]) && Matches(seg, pat[1..], name[1..]) {
      ConsCover(seg, pat, name, 1);
    }
  }

  /** `**` matches when the rest of the pattern matches at some depth. */
  lemma {:induction false} StarStarDepth(seg: SegmentMatch, pat: seq<string>, name: seq<string>)
    requires |pat| > 0 && pat[0] == STAR_STAR
    ensures Matches(seg, pat, name) <==> exists k :: 0 <= k <= |name| && Matches(seg, pat[1..], name[k..])
  {
    if Matches(seg, pat, name) {
      var k := SplitCover(seg, pat, name);
    } else if exists k :: 0 <= k <= |name| && Matches(seg, pat[1..], name[k..]) {
      var k :| 0 <= k <= |name| && Matches(seg, pat[1..], name[k..]);
      ConsCover(seg, pat, name, k);
    }
  }

  /** A run of `**` means the same as one. */
  lemma {:induction false} StarRunCollapses(seg: SegmentMatch, pat: seq<string>, name: seq<string>)
    requires |pat| > 1 && pat[0] == STAR_STAR && pat[1] == STAR_STAR
    ensures Matches(seg, pat, name) <==> Matches(seg, pat[1..], name)
  {
    if Matches(seg, pat, name) {
      var k := SplitCover(seg, pat, name);
      var j := SplitCover(seg, pat[1..], name[k..]);
      assert name[k..][j..] == name[k + j..];
      ConsCover(seg, pat[1..], name, k + j);
    } else if Matches(seg, pat[1..], name) {
      assert name[0..] == name;
      ConsCover(seg, pat, name, 0);
    }
  }

  /** A trailing `**` accepts any remainder. */
  lemma TrailingStar(seg: SegmentMatch, name: seq<string>)
    ensures Matches(seg, [STAR_STAR], name)
  {
    assert name[|name|..] == [];
    EmptyPattern(seg, []);
    assert [STAR_STAR][1..] == [];
    ConsCover(seg, [STAR_STAR], name, |name|);
  }

  /** The matcher decides exactly the declarative meaning, on every pattern and name. */
  method DoGlobMatch(seg: SegmentMatch, patParts: seq<string>, nameParts: seq<string>) returns (matched: bool)
    ensures matched <==> Matches(seg, patParts, nameParts)
    decreases |patParts|
  {
    var pat, name := patParts, nameParts;
    while |pat| > 0
      invariant |pat| <= |patParts|
      invariant Matches(seg, pat, name) <==> Matches(seg, patParts, nameParts)
      decreases |pat|
    {
      var s := pat[0];
      if s == STAR_STAR {
        ghost var whole := pat;
        pat := pat[1..];
        assert [STAR_STAR] + pat == whole;
        // Consume consecutive ** segments.
        while |pat| > 0 && pat[0] == STAR_STAR
          invariant |pat| < |whole|
          invariant Matches(seg, [STAR_STAR] + pat, name) <==> Matches(seg, whole, name)
          decreases |pat|
        {
          StarRunCollapses(seg, [STAR_STAR] + pat, name);
          assert ([STAR_STAR] + pat)[1..] == pat == [STAR_STAR] + pat[1..];
          pat := pat[1..];
        }
        if |pat| == 0 {
          TrailingStar(seg, name);
          assert [STAR_STAR] + pat == [STAR_STAR];
          return true;
        }
        StarStarDepth(seg, [STAR_STAR] + pat, name);
        assert ([STAR_STAR] + pat)[1..] == pat;
        // Try matching the remaining pattern at every depth.
        for i := 0 to |name| + 1
          invariant forall k :: 0 <= k < i ==> !Matches(seg, pat, name[k..])
        {
          var here := DoGlobMatch(seg, pat, name[i..]);
          if here {
            return true;
          }
        }
        return false;
      }
      SingleSegment(seg, pat, name);
      if |name| == 0 {
        return false;
      }
      if !seg(s, name[0]) {
        return false;
      }
      pat, name := pat[1..], name[1..];
    }
    EmptyPattern(seg, name);
    return |name| == 0;
  }

  // --- Splitting a path into segments ---------------------------------------

  /** The segments of a path: the pieces between separators, never fewer than one. */
  function Split(path: string): (parts: seq<string>)
    ensures |parts| > 0
    ensures forall p :: p in parts ==> '/' !in p
    ensures Join(parts) == path
  {
    if path == "" then [""]
    else
      var rest := Split(path[1..]);
      if path[0] == '/' then [""] + rest else [[path[0]] + rest[0]] + rest[1..]
  }

  function Join(parts: seq<string>): string
    requires |parts| > 0
  {
    parts[0] + (if |parts| == 1 then "" else "/" + Join(parts[1..]))
  }

  /** Splitting undoes joining, so the segments of a path are determined by it. */
  lemma {:induction false} SplitJoin(parts: seq<string>)
    requires |parts| > 0
    requires forall p :: p in parts ==> '/' !in p
    ensures Split(Join(parts)) == parts
    decreases |parts|, |parts[0]|
  {
    var head := parts[0];
    if head != "" {
      var shorter := [head[1..]] + parts[1..];
      assert head in parts && forall c :: c in head[1..] ==> c in head;
      assert forall p :: p in shorter ==> p == head[1..] || p in parts;
      SplitJoin(shorter);
      JoinHead(head[0], shorter);
      assert [head[0]] + head[1..] == head && head[0] in head;
      assert [head] + shorter[1..] == parts;
    } else if |parts| > 1 {
      SplitJoin(parts[1..]);
      assert Join(parts)[1..] == Join(parts[1..]);
    }
  }

  lemma JoinHead(c: char, parts: seq<string>)
    requires |parts| > 0
    ensures Join([[c] + parts[0]] + parts[1..]) == [c] + Join(parts)
  {
    var longer := [[c] + parts[0]] + parts[1..];
    var tail := if |parts| == 1 then "" else "/" + Join(parts[1..]);
    assert longer[1..] == parts[1..];
    assert Join(longer) == longer[0] + tail;
    Assoc([c], parts[0], tail);
  }

  lemma Assoc<T>(a: seq<T>, b: seq<T>, c: seq<T>)
    ensures (a + b) + c == a + (b + c)
  {
  }

  /** Matching two paths is matching their segments. */
  method GlobMatch(seg: SegmentMatch, pattern: string, name: string) returns (matched: bool)
    ensures matched <==> Matches(seg, Split(pattern), Split(name))
  {
    matched := DoGlobMatch(seg, Split(pattern), Split(name));
  }
}
