/** The quote-aware rewriter of hash references (internal/parser/filter/filter.go).

    A rule source is a byte string; a `char` here stands for one byte.  The scanner
    copies string literals byte for byte and turns each `#identifier` outside of them
    into `$env["#identifier"]`.
 */
module HashRewrite {

  predicate IsIdentStart(c: char) {
    'a' <= c <= 'z' || 'A' <= c <= 'Z' || c == '_'
  }

  predicate IsIdentChar(c: char) {
    IsIdentStart(c) || '0' <= c <= '9'
  }

  predicate IsQuote(c: char) {
    c == '\"' || c == '\'' || c == '`'
  }

  // Only the double and the single quote honour backslash escapes.
  predicate HonoursEscapes(quote: char) {
    quote == '\"' || quote == '\''
  }

  // --- Lexing and printing ---------------------------------------------------

  datatype Token = Literal(text: string) | Ref(text: string) | Other(c: char)

  /** Length of a literal's body, its closing quote included if it has one. */
  function BodyLength(s: string, quote: char): (n: nat)
    ensures n <= |s|
    ensures s != "" ==> n > 0
  {
    if s == "" then 0
    else if HonoursEscapes(quote) && s[0] == '\\' && |s| > 1 then 2 + BodyLength(s[2..], quote)
    else if s[0] == quote then 1
    else 1 + BodyLength(s[1..], quote)
  }

  function IdentLength(s: string): (n: nat)
    ensures n <= |s|
    ensures forall i :: 0 <= i < n ==> IsIdentChar(s[i])
    ensures n < |s| ==> !IsIdentChar(s[n])
  {
    if s == "" || !IsIdentChar(s[0]) then 0 else 1 + IdentLength(s[1..])
  }

  predicate StartsRef(s: string) {
    |s| > 1 && s[0] == '#' && IsIdentStart(s[1])
  }

  /** Length of the first token of a non-empty source. */
  function FirstLength(s: string): (n: nat)
    requires s != ""
    ensures 0 < n <= |s|
  {
    if IsQuote(s[0]) then 1 + BodyLength(s[1..], s[0])
    else if StartsRef(s) then 1 + IdentLength(s[1..])
    else 1
  }

  function FirstToken(s: string): (t: Token)
    requires s != ""
    ensures Text(t) == s[..FirstLength(s)]
  {
    var n := FirstLength(s);
    if IsQuote(s[0]) then Literal(s[..n]) else if StartsRef(s) then Ref(s[..n]) else Other(s[0])
  }

  function Lex(s: string): (tokens: seq<Token>) {
    if s == "" then [] else [FirstToken(s)] + Lex(s[FirstLength(s)..])
  }

  /** Lexing loses nothing, and no token is empty. */
  lemma {:induction false} LexPrints(s: string)
    ensures Print(Lex(s)) == s
    ensures forall t :: t in Lex(s) ==> Text(t) != ""
  {
    if s != "" {
      var n := FirstLength(s);
      LexPrints(s[n..]);
      assert s == s[..n] + s[n..];
    }
  }

  function Text(t: Token): string {
    match t
    case Literal(text) => text
    case Ref(text) => text
    case Other(c) => [c]
  }

  function Print(tokens: seq<Token>): string {
    if tokens == [] then "" else Text(tokens[0]) + Print(tokens[1..])
  }

  const ENV_OPEN := [Other('$'), Other('e'), Other('n'), Other('v'), Other('[')]

  /** What one token becomes: only a reference changes. */
  function ExpandToken(t: Token): seq<Token> {
    if t.Ref? then ENV_OPEN + [Literal("\"" + t.text + "\""), Other(']')] else [t]
  }

  function Expand(tokens: seq<Token>): seq<Token> {
    if tokens == [] then [] else ExpandToken(tokens[0]) + Expand(tokens[1..])
  }

  function Rewritten(src: string): string {
    Print(Expand(Lex(src)))
  }

  function EnvRef(text: string): string {
    "$env[\"" + text + "\"]"
  }

  // --- The scanner -------------------------------------------------------------

  /** What is still to be printed when the scanner stands before s, inside a literal or not. */
  ghost function Remaining(s: string, inStr: bool, quote: char): string {
    if inStr
    then s[..BodyLength(s, quote)] + Rewritten(s[BodyLength(s, quote)..])
    else Rewritten(s)
  }

  lemma BodyStep(s: string, quote: char, n: nat)
    requires s != ""
    requires n == if HonoursEscapes(quote) && s[0] == '\\' && |s| > 1 then 2 else 1
    ensures var b := BodyLength(s, quote);
            var b' := if n == 2 || s[0] != quote then BodyLength(s[n..], quote) else 0;
            b == n + b' && s[..b] == s[..n] + s[n..][..b'] && s[b..] == s[n..][b'..]
  {
    var b := BodyLength(s, quote);
    var b' := if n == 2 || s[0] != quote then BodyLength(s[n..], quote) else 0;
    assert b == n + b';
    hide BodyLength;
  }

  lemma RemainingInBody(s: string, quote: char, n: nat)
    requires s != ""
    requires n == if HonoursEscapes(quote) && s[0] == '\\' && |s| > 1 then 2 else 1
    ensures Remaining(s, true, quote) == s[..n] + Remaining(s[n..], n == 2 || s[0] != quote, quote)
  {
    hide Rewritten, BodyLength;
    BodyStep(s, quote, n);
    var b := BodyLength(s, quote);
    var b' := b - n;
    var rest := s[n..];
    var after := Rewritten(s[b..]);
    assert Remaining(s, true, quote) == s[..b] + after == s[..n] + (rest[..b'] + after);
    if b' == 0 {
      assert rest[..b'] + after == after;
    }
  }

  lemma FirstOfExpansion(s: string)
    requires s != ""
    ensures Rewritten(s) == Print(ExpandToken(FirstToken(s))) + Rewritten(s[FirstLength(s)..])
  {
    PrintSplit(ExpandToken(FirstToken(s)), Expand(Lex(s)[1..]));
  }

  lemma PrintOne(t: Token)
    ensures Print([t]) == Text(t)
  {
  }

  lemma LiteralStays(s: string)
    requires s != "" && IsQuote(s[0])
    ensures FirstLength(s) == 1 + BodyLength(s[1..], s[0])
    ensures Rewritten(s) == s[..FirstLength(s)] + Rewritten(s[FirstLength(s)..])
  {
    hide Rewritten, BodyLength, Print, Expand;
    FirstOfExpansion(s);
    PrintOne(FirstToken(s));
  }

  lemma RemainingAtQuote(s: string)
    requires s != "" && IsQuote(s[0])
    ensures Rewritten(s) == s[..1] + Remaining(s[1..], true, s[0])
  {
    LiteralStays(s);
    hide Rewritten, BodyLength, FirstLength, IsQuote;
    var rest := s[1..];
    var b := BodyLength(rest, s[0]);
    CutAfterFirst(s, b);
    Advance(s[..1], rest[..b], Rewritten(rest[b..]));
  }

  lemma CutAfterFirst(s: string, b: nat)
    requires 1 + b <= |s|
    ensures s[..1 + b] == s[..1] + s[1..][..b] && s[1 + b..] == s[1..][b..]
  {
  }

  lemma RemainingAtRef(s: string)
    requires StartsRef(s)
    ensures Rewritten(s) == EnvRef(s[..FirstLength(s)]) + Rewritten(s[FirstLength(s)..])
  {
    hide Rewritten;
    FirstOfExpansion(s);
    PrintRef(s[..FirstLength(s)]);
  }

  lemma RemainingAtOther(s: string)
    requires s != "" && !IsQuote(s[0]) && !StartsRef(s)
    ensures Rewritten(s) == s[..1] + Rewritten(s[1..])
  {
    hide Rewritten;
    FirstOfExpansion(s);
    PrintOne(FirstToken(s));
  }

  /** What the scanner will have printed in all, standing at src[i] with this much printed. */
  ghost function InAll(out: string, src: string, i: nat, inStr: bool, quote: char): string
    requires i <= |src|
  {
    out + Remaining(src[i..], inStr, quote)
  }

  lemma InAllAtEnds(src: string, out: string, inStr: bool, quote: char)
    ensures InAll("", src, 0, false, quote) == Rewritten(src)
    ensures InAll(out, src, |src|, inStr, quote) == out
  {
    assert src[0..] == src;
  }

  // The scanner standing at src[i] prints a piece and moves on; what is printed in all stays.
  lemma ScanEscape(src: string, i: nat, quote: char, out: string)
    requires i + 1 < |src| && HonoursEscapes(quote) && src[i] == '\\'
    ensures InAll(out, src, i, true, quote) == InAll(out + [src[i]] + [src[i + 1]], src, i + 2, true, quote)
  {
    hide Remaining, BodyLength;
    var rest := src[i..];
    RemainingInBody(rest, quote, 2);
    assert rest[2..] == src[i + 2..] && rest[..2] == [src[i]] + [src[i + 1]];
  }

  lemma ScanInBody(src: string, i: nat, quote: char, out: string)
    requires i < |src|
    requires !(HonoursEscapes(quote) && src[i] == '\\' && i + 1 < |src|)
    ensures InAll(out, src, i, true, quote) == InAll(out + [src[i]], src, i + 1, src[i] != quote, quote)
  {
    hide Remaining, BodyLength;
    var rest := src[i..];
    RemainingInBody(rest, quote, 1);
    assert rest[1..] == src[i + 1..] && rest[..1] == [src[i]];
  }

  lemma ScanOutside(src: string, i: nat, quote: char, out: string)
    requires i < |src|
    requires src[i] != '#' || i + 1 == |src| || !IsIdentStart(src[i + 1])
    ensures InAll(out, src, i, false, quote) ==
            InAll(out + [src[i]], src, i + 1, IsQuote(src[i]), if IsQuote(src[i]) then src[i] else quote)
  {
    hide Rewritten;
    var rest := src[i..];
    assert rest[1..] == src[i + 1..] && rest[..1] == [src[i]];
    if IsQuote(src[i]) {
      RemainingAtQuote(rest);
    } else {
      RemainingAtOther(rest);
    }
  }

  lemma ScanRef(src: string, i: nat, j: nat, quote: char, out: string)
    requires i + 1 < j <= |src| && src[i] == '#' && IsIdentStart(src[i + 1])
    requires forall m :: i + 1 <= m < j ==> IsIdentChar(src[m])
    requires j < |src| ==> !IsIdentChar(src[j])
    ensures InAll(out, src, i, false, quote) == InAll(out + EnvRef(src[i..j]), src, j, false, quote)
  {
    hide Rewritten;
    var rest := src[i..];
    IdentLengthIs(rest[1..], j - i - 1);
    assert src[i..j] == rest[..j - i] && rest[j - i..] == src[j..];
    assert FirstLength(rest) == j - i;
    RemainingAtRef(rest);
    Advance(out, EnvRef(src[i..j]), Rewritten(src[j..]));
  }

  method IdentEnd(src: string, i: nat) returns (j: nat)
    requires i <= |src|
    ensures i <= j <= |src|
    ensures forall m :: i <= m < j ==> IsIdentChar(src[m])
    ensures j < |src| ==> !IsIdentChar(src[j])
  {
    j := i;
    while j < |src| && IsIdentChar(src[j])
      invariant i <= j <= |src|
      invariant forall m :: i <= m < j ==> IsIdentChar(src[m])
    {
      j := j + 1;
    }
  }

  lemma StartsAnIdent(c: char)
    ensures IsIdentStart(c) ==> IsIdentChar(c)
  {
  }

  lemma Advance(out: string, next: string, todo: string)
    ensures out + (next + todo) == (out + next) + todo
  {
  }

  /** One step of the scan inside a literal: a character and what it escapes are copied, and the closing quote ends
      it. */
  method CopyInLiteral(src: string, i: nat, quote: char, out: string) returns (out': string, next: nat, inStr: bool)
    requires i < |src|
    ensures i < next <= |src|
    ensures InAll(out', src, next, inStr, quote) == InAll(out, src, i, true, quote)
  {
    hide *;
    var c := src[i];
    if HonoursEscapes(quote) && c == '\\' && i + 1 < |src| {
      ScanEscape(src, i, quote, out);
      return out + [c] + [src[i + 1]], i + 2, true;
    }
    ScanInBody(src, i, quote, out);
    return out + [c], i + 1, c != quote;
  }

  /** One step of the scan outside: a quote opens a literal, a hash before an identifier is rewritten with it, anything
      else is copied. */
  method RewriteOutside(src: string, i: nat, quote: char, out: string)
    returns (out': string, next: nat, inStr: bool, quote': char)
    requires i < |src|
    ensures i < next <= |src|
    ensures InAll(out', src, next, inStr, quote') == InAll(out, src, i, false, quote)
  {
    hide *;
    var c := src[i];
    if IsQuote(c) {
      QuoteIsNoHash(c);
      ScanOutside(src, i, quote, out);
      return out + [c], i + 1, true, c;
    }
    if c == '#' {
      var j := IdentEnd(src, i + 1);
      if i + 1 < |src| {
        StartsAnIdent(src[i + 1]);
      }
      if j > i + 1 && IsIdentStart(src[i + 1]) {
        ScanRef(src, i, j, quote, out);
        return out + EnvRef(src[i..j]), j, false, quote;
      }
    }
    ScanOutside(src, i, quote, out);
    return out + [c], i + 1, false, quote;
  }

  lemma QuoteIsNoHash(c: char)
    ensures IsQuote(c) ==> c != '#'
  {
  }

  /** The rewriter's single left-to-right scan prints the mapped tokens of its source. */
  method RewriteHashRefs(src: string) returns (out: string)
    ensures out == Rewritten(src)
  {
    out := "";
    var inStr := false;
    var quote := '`';
    var i := 0;
    InAllAtEnds(src, out, inStr, quote);
    hide *;
    while i < |src|
      invariant 0 <= i <= |src|
      invariant InAll(out, src, i, inStr, quote) == Rewritten(src)
      decreases |src| - i
    {
      if inStr {
        out, i, inStr := CopyInLiteral(src, i, quote, out);
      } else {
        out, i, inStr, quote := RewriteOutside(src, i, quote, out);
      }
    }
    InAllAtEnds(src, out, inStr, quote);
  }

  lemma {:induction false} IdentLengthIs(s: string, n: nat)
    requires n <= |s|
    requires forall i :: 0 <= i < n ==> IsIdentChar(s[i])
    requires n < |s| ==> !IsIdentChar(s[n])
    ensures IdentLength(s) == n
  {
    if n > 0 {
      IdentLengthIs(s[1..], n - 1);
    }
  }

  lemma PrintRef(text: string)
    ensures Print(ExpandToken(Ref(text))) == EnvRef(text)
  {
    var close := [Literal("\"" + text + "\""), Other(']')];
    PrintSplit(ENV_OPEN, close);
    PrintEnvOpen();
    assert close[1..] == [Other(']')];
    PrintOne(Other(']'));
    assert "$env[\"" == "$env[" + "\"" && "\"]" == "\"" + "]";
    Regroup("$env[", "\"", text, "\"", "]", "");
  }

  lemma PrintEnvOpen()
    ensures Print(ENV_OPEN) == "$env["
  {
    var t := ENV_OPEN;
    assert t[1..][1..] == t[2..] && t[2..][1..] == t[3..] && t[3..][1..] == t[4..];
    assert Print(t[4..]) == "[";
    assert Print(t[3..]) == "v[";
    assert Print(t[2..]) == "nv[";
    assert Print(t[1..]) == "env[";
  }

  lemma {:induction false} PrintSplit(a: seq<Token>, b: seq<Token>)
    ensures Print(a + b) == Print(a) + Print(b)
  {
    if a == [] {
      assert a + b == b;
    } else {
      assert (a + b)[1..] == a[1..] + b;
      PrintSplit(a[1..], b);
    }
  }

  lemma {:induction false} ExpandSplit(a: seq<Token>, b: seq<Token>)
    ensures Expand(a + b) == Expand(a) + Expand(b)
  {
    if a == [] {
      assert a + b == b;
    } else {
      assert (a + b)[1..] == a[1..] + b;
      ExpandSplit(a[1..], b);
    }
  }

  // --- An independent view of "inside a string": a three-state automaton -------

  datatype State = Outside | Inside(quote: char) | Escaped(quote: char)

  function Step(st: State, c: char): State {
    match st
    case Outside => if c == '\"' || c == '\'' || c == '`' then Inside(c) else Outside
    case Inside(q) => if q != '`' && c == '\\' then Escaped(q) else if c == q then Outside else st
    case Escaped(q) => Inside(q)
  }

  function Scan(st: State, s: string): State
    decreases |s|
  {
    if s == "" then st else Scan(Step(st, s[0]), s[1..])
  }

  /** A reference starts at p: a hash before a letter or an underscore, with the automaton outside any literal. */
  predicate IsRefStart(src: string, p: nat)
    requires p <= |src|
  {
    && Scan(Outside, src[..p]) == Outside
    && p + 1 < |src| && src[p] == '#'
    && ('a' <= src[p + 1] <= 'z' || 'A' <= src[p + 1] <= 'Z' || src[p + 1] == '_')
  }

  /** It reaches to the last of the letters, digits and underscores that follow: each i inside is one, the next is
      not. */
  lemma RefReaches(s: string, i: nat)
    requires StartsRef(s) && 1 <= i <= FirstLength(s) && i < |s|
    ensures FirstToken(s) == Ref(s[..FirstLength(s)])
    ensures i < FirstLength(s) <==>
            'a' <= s[i] <= 'z' || 'A' <= s[i] <= 'Z' || s[i] == '_' || '0' <= s[i] <= '9'
  {
    assert s[i] == s[1..][i - 1];
  }

  lemma {:induction false} ScanSplit(st: State, a: string, b: string)
    ensures Scan(st, a + b) == Scan(Scan(st, a), b)
    decreases |a|
  {
    if a == "" {
      assert a + b == b;
    } else {
      assert (a + b)[1..] == a[1..] + b;
      ScanSplit(Step(st, a[0]), a[1..], b);
    }
  }

  lemma {:induction false} PlainStaysOutside(s: string)
    requires forall i :: 0 <= i < |s| ==> !IsQuote(s[i])
    ensures Scan(Outside, s) == Outside
  {
    if s != "" {
      PlainStaysOutside(s[1..]);
    }
  }

  // A body that ends before the source does ends with its closing quote.
  lemma {:induction false} BodyCloses(s: string, quote: char)
    requires IsQuote(quote)
    requires BodyLength(s, quote) < |s|
    ensures Scan(Inside(quote), s[..BodyLength(s, quote)]) == Outside
  {
    var n := BodyLength(s, quote);
    if HonoursEscapes(quote) && s[0] == '\\' && |s| > 1 {
      BodyCloses(s[2..], quote);
      assert s[..n] == [s[0], s[1]] + s[2..][..n - 2];
      ScanSplit(Inside(quote), [s[0], s[1]], s[2..][..n - 2]);
      assert [s[0], s[1]][1..] == [s[1]];
    } else if s[0] == quote {
      assert s[..1] == [quote];
    } else {
      BodyCloses(s[1..], quote);
      assert s[..n][1..] == s[1..][..n - 1];
    }
  }

  // Inside a token no later position is outside every literal, unless it is part of a reference.
  lemma {:induction false} BodyStaysInside(s: string, quote: char, p: nat)
    requires IsQuote(quote)
    requires p < BodyLength(s, quote)
    ensures Scan(Inside(quote), s[..p]) != Outside
  {
    if p > 0 {
      if HonoursEscapes(quote) && s[0] == '\\' && |s| > 1 {
        if p == 1 {
          assert s[..1] == [s[0]];
        } else {
          BodyStaysInside(s[2..], quote, p - 2);
          assert s[..p] == [s[0], s[1]] + s[2..][..p - 2];
          ScanSplit(Inside(quote), [s[0], s[1]], s[2..][..p - 2]);
          assert [s[0], s[1]][1..] == [s[1]];
        }
      } else {
        BodyStaysInside(s[1..], quote, p - 1);
        assert s[..p][1..] == s[1..][..p - 1];
      }
    }
  }

  lemma {:induction false} FirstTokenCloses(s: string)
    requires s != ""
    requires FirstLength(s) < |s| || !IsQuote(s[0])
    ensures Scan(Outside, s[..FirstLength(s)]) == Outside
  {
    var n := FirstLength(s);
    if IsQuote(s[0]) {
      BodyCloses(s[1..], s[0]);
      assert s[..n][1..] == s[1..][..n - 1];
    } else {
      assert forall i :: 1 <= i < n ==> s[i] == s[1..][i - 1];
      PlainStaysOutside(s[..n]);
    }
  }

  /** Some reference token begins at offset p of the printed tokens. */
  ghost predicate RefTokenAt(tokens: seq<Token>, p: nat) {
    exists k :: 0 <= k < |tokens| && tokens[k].Ref? && |Print(tokens[..k])| == p
  }

  lemma RefTokenShift(tokens: seq<Token>, p: nat)
    requires tokens != [] && Text(tokens[0]) != ""
    ensures var n := |Text(tokens[0])|;
            RefTokenAt(tokens, p) <==>
            (p == 0 && tokens[0].Ref?) || (p >= n && RefTokenAt(tokens[1..], p - n))
  {
    var n, rest := |Text(tokens[0])|, tokens[1..];
    assert tokens[..0] == [];
    forall k | 1 <= k <= |tokens|
      ensures |Print(tokens[..k])| == n + |Print(rest[..k - 1])|
    {
      assert tokens[..k][1..] == rest[..k - 1];
    }
    if RefTokenAt(tokens, p) {
      var k :| 0 <= k < |tokens| && tokens[k].Ref? && |Print(tokens[..k])| == p;
      if k > 0 {
        assert rest[k - 1].Ref?;
      }
    }
    if p >= n && RefTokenAt(rest, p - n) {
      var k :| 0 <= k < |rest| && rest[k].Ref? && |Print(rest[..k])| == p - n;
      assert tokens[k + 1].Ref?;
    }
  }

  /** The lexer's references are exactly the positions the automaton singles out. */
  lemma {:induction false} RefsExactly(src: string, p: nat)
    requires p <= |src|
    ensures IsRefStart(src, p) <==> RefTokenAt(Lex(src), p)
    decreases |src|
  {
    hide BodyLength, IdentLength, Step, Scan, IsRefStart, Print;
    if src == "" {
      NoRefAtEnd(src, p);
    } else {
      var n := FirstLength(src);
      assert Lex(src)[1..] == Lex(src[n..]);
      RefTokenShift(Lex(src), p);
      NoRefAtEnd(src, |src|);
      if p == 0 {
        RefAtStart(src);
      } else if p < n {
        InnerPosition(src, p);
      } else if p < |src| {
        RefStartShift(src, p);
        RefsExactly(src[n..], p - n);
      } else {
        LexPrints(src[n..]);
        RefTokensEarlier(Lex(src[n..]), p - n);
      }
    }
  }

  lemma RefAtStart(src: string)
    ensures IsRefStart(src, 0) <==> StartsRef(src)
  {
    assert src[..0] == "";
  }

  lemma NoRefAtEnd(src: string, p: nat)
    requires p == |src|
    ensures !IsRefStart(src, p)
  {
    hide Scan;
  }

  lemma RefStartShift(src: string, p: nat)
    requires src != "" && FirstLength(src) <= p < |src|
    ensures var n := FirstLength(src); IsRefStart(src, p) <==> IsRefStart(src[n..], p - n)
  {
    var n := FirstLength(src);
    FirstTokenCloses(src);
    assert src[..p] == src[..n] + src[n..][..p - n];
    ScanSplit(Outside, src[..n], src[n..][..p - n]);
    assert src[n..][p - n..] == src[p..];
  }

  lemma {:induction false} RefTokensEarlier(tokens: seq<Token>, p: nat)
    requires |Print(tokens)| <= p
    requires forall t :: t in tokens ==> Text(t) != ""
    ensures !RefTokenAt(tokens, p)
  {
    if tokens != [] {
      RefTokenShift(tokens, p);
      RefTokensEarlier(tokens[1..], p - |Text(tokens[0])|);
    }
  }

  lemma {:induction false} InnerPosition(src: string, p: nat)
    requires src != "" && 0 < p < FirstLength(src)
    ensures !IsRefStart(src, p)
  {
    if IsQuote(src[0]) {
      BodyStaysInside(src[1..], src[0], p - 1);
      assert src[..p][1..] == src[1..][..p - 1];
    } else {
      assert IsIdentChar(src[1..][p - 1]);
    }
  }

  /** Scanner state on the output tracks scanner state on the source, token by token. */
  lemma {:induction false} ScannerTracks(src: string, k: nat)
    requires k <= |Lex(src)|
    ensures Scan(Outside, Print(Expand(Lex(src)[..k]))) == Scan(Outside, Print(Lex(src)[..k]))
    decreases |src|
  {
    if k > 0 {
      var n := FirstLength(src);
      var toks, rest := Lex(src), Lex(src[n..]);
      var t := toks[0];
      assert toks[..k] == [t] + rest[..k - 1];
      assert toks[..k][1..] == rest[..k - 1];
      PrintSplit(ExpandToken(t), Expand(rest[..k - 1]));
      assert Print([t]) == Text(t) == src[..n];
      ScanSplit(Outside, Print(ExpandToken(t)), Print(Expand(rest[..k - 1])));
      ScanSplit(Outside, Text(t), Print(rest[..k - 1]));
      if t.Ref? {
        FirstTokenCloses(src);
        ExpandedRefCloses(src);
      }
      if k > 1 {
        FirstTokenCloses(src);
        ScannerTracks(src[n..], k - 1);
      } else {
        assert rest[..0] == [];
      }
    }
  }

  lemma ExpandedRefCloses(src: string)
    requires StartsRef(src)
    ensures Scan(Outside, Print(ExpandToken(Ref(src[..FirstLength(src)])))) == Outside
  {
    var t := src[..FirstLength(src)];
    RefTextIsPlain(src);
    PrintRef(t);
    assert "$env[\"" + t + "\"]" == "$env[" + ("\"" + (t + "\"" + "]"));
    PlainStaysOutside("$env[");
    ScanSplit(Outside, "$env[", "\"" + (t + "\"" + "]"));
    QuotedPlain(t, "\"" + "]");
    assert ("\"" + (t + "\"" + "]"))[1..] == t + "\"" + "]" == t + ("\"" + "]");
    assert ("\"" + "]")[1..] == "]" && "]"[1..] == "";
  }

  lemma RefTextIsPlain(src: string)
    requires StartsRef(src)
    ensures forall i :: 0 <= i < FirstLength(src) ==> !IsQuote(src[i]) && src[i] != '\\'
  {
    assert forall i :: 1 <= i < FirstLength(src) ==> src[i] == src[1..][i - 1];
  }

  lemma {:induction false} QuotedPlain(t: string, rest: string)
    requires forall i :: 0 <= i < |t| ==> !IsQuote(t[i]) && t[i] != '\\'
    ensures Scan(Inside('\"'), t + rest) == Scan(Inside('\"'), rest)
  {
    if t == "" {
      assert t + rest == rest;
    } else {
      assert (t + rest)[1..] == t[1..] + rest;
      QuotedPlain(t[1..], rest);
    }
  }

  // --- Rewriting twice equals rewriting once -----------------------------------

  lemma LexOther(c: char, rest: string)
    requires !IsQuote(c)
    requires !StartsRef([c] + rest)
    ensures Lex([c] + rest) == [Other(c)] + Lex(rest)
  {
    assert ([c] + rest)[1..] == rest;
  }

  // A closed body keeps its length whatever follows it.
  lemma {:induction false} BodyLengthExtends(s: string, quote: char, more: string)
    requires IsQuote(quote)
    requires BodyLength(s, quote) < |s|
    ensures BodyLength(s[..BodyLength(s, quote)] + more, quote) == BodyLength(s, quote)
  {
    hide BodyLength, IsQuote, HonoursEscapes;
    var n := BodyLength(s, quote);
    var t := s[..n] + more;
    BodyCons(s, quote);
    assert t[0] == s[0];
    BodyCons(t, quote);
    if HonoursEscapes(quote) && s[0] == '\\' && |s| > 1 {
      var rest := s[2..];
      BodyLengthExtends(rest, quote, more);
      assert t[2..] == rest[..n - 2] + more;
    } else if s[0] != quote {
      var rest := s[1..];
      BodyLengthExtends(rest, quote, more);
      assert t[1..] == rest[..n - 1] + more;
    }
  }

  // A literal followed by anything is lexed alone.
  lemma LexLiteral(s: string, more: string)
    requires s != "" && IsQuote(s[0]) && FirstLength(s) < |s|
    ensures Lex(s[..FirstLength(s)] + more) == [Literal(s[..FirstLength(s)])] + Lex(more)
  {
    hide BodyLength, IsQuote;
    var n := FirstLength(s);
    var t := s[..n] + more;
    assert t[0] == s[0];
    BodyLengthExtends(s[1..], s[0], more);
    assert t[1..] == s[1..][..n - 1] + more;
    assert FirstLength(t) == n && t[..n] == s[..n] && t[n..] == more;
  }

  lemma BodyCons(s: string, quote: char)
    requires s != ""
    ensures BodyLength(s, quote) ==
            if HonoursEscapes(quote) && s[0] == '\\' && |s| > 1 then 2 + BodyLength(s[2..], quote)
            else if s[0] == quote then 1
            else 1 + BodyLength(s[1..], quote)
  {
  }

  lemma {:induction false} PlainBodyLength(t: string, more: string)
    requires forall i :: 0 <= i < |t| ==> !IsQuote(t[i]) && t[i] != '\\'
    ensures BodyLength(t + "\"" + more, '\"') == |t| + 1
  {
    if t == "" {
      assert (t + "\"" + more)[0] == '\"';
    } else {
      assert (t + "\"" + more)[1..] == t[1..] + "\"" + more;
      PlainBodyLength(t[1..], more);
    }
  }

  lemma LexQuoted(t: string, more: string)
    requires forall i :: 0 <= i < |t| ==> !IsQuote(t[i]) && t[i] != '\\'
    ensures Lex("\"" + t + "\"" + more) == [Literal("\"" + t + "\"")] + Lex(more)
  {
    var quoted := "\"" + t + "\"" + more;
    assert quoted[1..] == t + "\"" + more;
    PlainBodyLength(t, more);
    assert quoted[..|t| + 2] == "\"" + t + "\"" && quoted[|t| + 2..] == more;
  }

  lemma QuoteSplit(t: string, more: string)
    ensures "$env[\"" + t + "\"]" + more == "$env[" + ("\"" + t + "\"" + ("]" + more))
  {
    assert "$env[\"" == "$env[" + "\"";
    assert "\"]" == "\"" + "]";
    Regroup("$env[", "\"", t, "\"", "]", more);
  }

  lemma Regroup(a: string, b: string, c: string, d: string, e: string, f: string)
    ensures (a + b) + c + (d + e) + f == a + (b + c + d + (e + f))
  {
  }

  lemma LexEnv(more: string)
    ensures Lex("$env[" + more) == ENV_OPEN + Lex(more)
  {
    hide Lex;
    var m1 := "[" + more;
    var m2 := "v" + m1;
    var m3 := "n" + m2;
    var m4 := "e" + m3;
    LexOther('[', more);
    LexOther('v', m1);
    LexOther('n', m2);
    LexOther('e', m3);
    LexOther('$', m4);
    assert "$env[" + more == "$" + m4;
    var others := [Other('$')] + ([Other('e')] + ([Other('n')] + ([Other('v')] + ([Other('[')] + Lex(more)))));
    assert others == ENV_OPEN + Lex(more);
  }

  lemma LexWrapped(t: string, tail: string)
    requires forall i :: 0 <= i < |t| ==> !IsQuote(t[i]) && t[i] != '\\'
    ensures Lex("$env[" + ("\"" + t + "\"" + tail)) ==
            ENV_OPEN + [Literal("\"" + t + "\"")] + Lex(tail)
  {
    hide Lex;
    LexQuoted(t, tail);
    LexEnv("\"" + t + "\"" + tail);
  }

  lemma RegroupTokens(a: seq<Token>, b: Token, c: Token, rest: seq<Token>)
    ensures (a + [b]) + ([c] + rest) == (a + [b, c]) + rest
  {
  }

  lemma LexExpandedRef(src: string, more: string)
    requires StartsRef(src)
    ensures var r := Ref(src[..FirstLength(src)]);
            Lex(Print(ExpandToken(r)) + more) == ExpandToken(r) + Lex(more)
  {
    var t := src[..FirstLength(src)];
    RefTextIsPlain(src);
    PrintRef(t);
    hide Lex, Print;
    QuoteSplit(t, more);
    var tail := "]" + more;
    LexWrapped(t, tail);
    LexOther(']', more);
    RegroupTokens(ENV_OPEN, Literal("\"" + t + "\""), Other(']'), Lex(more));
  }

  // The output begins as the source does, except that a reference begins with '$'.
  lemma FirstOfRewritten(s: string)
    ensures s == "" <==> Rewritten(s) == ""
    ensures s != "" ==> Rewritten(s)[0] == s[0] || Rewritten(s)[0] == '$'
  {
    if s != "" {
      var t, rest := Lex(s)[0], Lex(s)[1..];
      PrintSplit(ExpandToken(t), Expand(rest));
      if t.Ref? {
        PrintRef(t.text);
      } else {
        assert Print([t]) == Text(t);
      }
    }
  }

  lemma {:induction false} LexRewritten(s: string)
    ensures Lex(Rewritten(s)) == Expand(Lex(s))
    decreases |s|
  {
    if s != "" {
      var n := FirstLength(s);
      var t, rest := Lex(s)[0], s[n..];
      assert Lex(s)[1..] == Lex(rest);
      PrintSplit(ExpandToken(t), Expand(Lex(rest)));
      LexRewritten(rest);
      if t.Ref? {
        LexExpandedRef(s, Rewritten(rest));
      } else if t.Literal? {
        assert Print([t]) == s[..n];
        if rest == "" {
          assert s[..n] + "" == s;
          assert Lex(s) == [t] + Lex(rest);
        } else {
          LexLiteral(s, Rewritten(rest));
        }
      } else {
        assert Print([t]) == [t.c] == s[..1];
        FirstOfRewritten(rest);
        LexOther(t.c, Rewritten(rest));
      }
    }
  }

  lemma {:induction false} ExpandTwice(tokens: seq<Token>)
    ensures Expand(Expand(tokens)) == Expand(tokens)
  {
    if tokens != [] {
      var t := tokens[0];
      ExpandSplit(ExpandToken(t), Expand(tokens[1..]));
      ExpandTwice(tokens[1..]);
      NoRefsExpand(ExpandToken(t));
    }
  }

  lemma {:induction false} NoRefsExpand(tokens: seq<Token>)
    requires forall t :: t in tokens ==> !t.Ref?
    ensures Expand(tokens) == tokens
  {
    if tokens != [] {
      NoRefsExpand(tokens[1..]);
    }
  }

  /** The rewriter's output holds no reference to rewrite. */
  lemma RewriteTwice(src: string)
    ensures Rewritten(Rewritten(src)) == Rewritten(src)
  {
    LexRewritten(src);
    ExpandTwice(Lex(src));
  }
}
