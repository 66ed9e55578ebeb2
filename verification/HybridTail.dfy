/** Hybrid tailing of one file: event-driven lines with a polling fallback
    (internal/source/tailer/tailer.go:607-786).

    A file only grows, and only by whole lines ended by '\n' and free of '\r'; no line is too long.  It may be
    removed or replaced, which a tick of the event-driven phase finds out.  Everything else is up to the
    environment: when lines are delivered, when the ticker fires, when the watcher ends, where drains fail, when
    the run is cancelled.
 */
module HybridTail {

  /** The text of a line, by where it lies in the file; its '\n' is at `to`. */
  datatype Span = Span(from: nat, to: nat)

  // --- Lines of a file ---------------------------------------------------------------------------

  predicate Whole(s: string) {
    s == "" || s[|s| - 1] == '\n'
  }

  /** A line starts here. */
  predicate Boundary(s: string, i: nat) {
    i <= |s| && (i == 0 || s[i - 1] == '\n')
  }

  /** Where the line that i is in ends: its '\n', or the end of the file. */
  function LineEnd(s: string, i: nat): (e: nat)
    requires i <= |s|
    ensures i <= e <= |s|
    decreases |s| - i
  {
    if i == |s| || s[i] == '\n' then i else LineEnd(s, i + 1)
  }

  lemma {:induction false} LineEndMeans(s: string, i: nat)
    requires i <= |s|
    ensures LineEnd(s, i) < |s| ==> s[LineEnd(s, i)] == '\n'
    ensures forall k :: i <= k < LineEnd(s, i) ==> s[k] != '\n'
    decreases |s| - i
  {
    if i < |s| && s[i] != '\n' {
      LineEndMeans(s, i + 1);
    }
  }

  /** The non-blank lines that start in [i, j). */
  function Between(s: string, i: nat, j: nat): seq<Span>
    requires i <= |s| && j <= |s|
    decreases |s| - i
  {
    if i >= j then []
    else
      var e := LineEnd(s, i);
      (if e > i then [Span(i, e)] else []) + (if e < |s| then Between(s, e + 1, j) else [])
  }

  lemma WholeEnds(s: string, i: nat)
    requires Whole(s) && i < |s|
    ensures LineEnd(s, i) < |s| && Boundary(s, LineEnd(s, i) + 1)
  {
    LineEndMeans(s, i);
    var last := |s| - 1;
    assert i <= last && s[last] == '\n';
  }

  lemma EndsBefore(s: string, i: nat, j: nat)
    requires i < j <= |s| && Boundary(s, j)
    ensures LineEnd(s, i) < j
  {
    LineEndMeans(s, i);
    assert s[j - 1] == '\n';
  }

  /** The line at i, if it is not blank. */
  function LineAt(s: string, i: nat): seq<Span>
    requires i <= |s|
  {
    if LineEnd(s, i) > i then [Span(i, LineEnd(s, i))] else []
  }

  lemma BetweenCons(s: string, i: nat, j: nat)
    requires i < j <= |s| && LineEnd(s, i) < |s|
    ensures Between(s, i, j) == LineAt(s, i) + Between(s, LineEnd(s, i) + 1, j)
  {
    hide LineEnd;
  }

  lemma BetweenNone(s: string, i: nat, j: nat)
    requires j <= i <= |s|
    ensures Between(s, i, j) == []
  {
  }

  lemma {:induction false} BetweenSplit(s: string, i: nat, j: nat, k: nat)
    requires i <= j <= k <= |s| && Boundary(s, j)
    ensures Between(s, i, k) == Between(s, i, j) + Between(s, j, k)
    decreases |s| - i
  {
    hide Between, LineEnd, LineAt, Boundary;
    if i < j {
      EndsBefore(s, i, j);
      BetweenCons(s, i, j);
      BetweenCons(s, i, k);
      BetweenSplit(s, LineEnd(s, i) + 1, j, k);
      Regroup(LineAt(s, i), Between(s, LineEnd(s, i) + 1, j), Between(s, j, k));
    } else {
      BetweenNone(s, i, i);
      assert [] + Between(s, j, k) == Between(s, j, k);
    }
  }

  lemma Regroup(a: seq<Span>, b: seq<Span>, c: seq<Span>)
    ensures a + (b + c) == (a + b) + c
  {
  }

  lemma {:induction false} LineEndGrows(s: string, more: string, i: nat)
    requires i <= |s| && LineEnd(s, i) < |s|
    ensures LineEnd(s + more, i) == LineEnd(s, i)
    decreases |s| - i
  {
    if i < |s| && s[i] != '\n' {
      LineEndGrows(s, more, i + 1);
    }
  }

  /** What is already in the file does not change when it grows. */
  lemma {:induction false} BetweenGrows(s: string, more: string, i: nat, j: nat)
    requires Whole(s) && i <= |s| && j <= |s|
    ensures Between(s + more, i, j) == Between(s, i, j)
    decreases |s| - i
  {
    hide Between, LineEnd, LineAt, Boundary, Whole;
    if i < j {
      WholeEnds(s, i);
      LineEndGrows(s, more, i);
      LineAtIs(s, i);
      LineAtIs(s + more, i);
      BetweenCons(s, i, j);
      BetweenCons(s + more, i, j);
      BetweenGrows(s, more, LineEnd(s, i) + 1, j);
    } else {
      BetweenNone(s, i, j);
      BetweenNone(s + more, i, j);
    }
  }

  lemma LineAtIs(s: string, i: nat)
    requires i <= |s|
    ensures LineAt(s, i) == if LineEnd(s, i) > i then [Span(i, LineEnd(s, i))] else []
  {
  }

  /** The next line, appended. */
  lemma NextLine(s: string, start: nat, i: nat)
    requires Whole(s) && start <= i < |s| && Boundary(s, i)
    ensures var e := LineEnd(s, i);
            && e < |s| && Boundary(s, e + 1)
            && Between(s, start, e + 1) == if e > i then Between(s, start, i) + [Span(i, e)] else Between(s, start, i)
  {
    hide Between, LineEnd, LineAt, Whole, Boundary;
    WholeEnds(s, i);
    var e := LineEnd(s, i);
    BetweenSplit(s, start, i, e + 1);
    BetweenNone(s, e + 1, e + 1);
    BetweenCons(s, i, e + 1);
    LineAtIs(s, i);
    assert LineAt(s, i) + [] == LineAt(s, i);
    assert Between(s, start, i) + [] == Between(s, start, i);
  }

  // --- Subsequences -----------------------------------------------------------------------------------

  /** a can be got from b by leaving elements out. */
  predicate Sub(a: seq<Span>, b: seq<Span>)
    decreases |b|
  {
    a == []
    || (b != [] && (Sub(a, b[..|b| - 1])
                    || (a[|a| - 1] == b[|b| - 1] && Sub(a[..|a| - 1], b[..|b| - 1]))))
  }

  lemma NothingSubs()
    ensures Sub([], [])
  {
  }

  lemma SubMore(a: seq<Span>, b: seq<Span>, x: Span)
    requires Sub(a, b)
    ensures Sub(a, b + [x]) && Sub(a + [x], b + [x])
  {
    assert (b + [x])[..|b|] == b && (a + [x])[..|a|] == a;
  }

  lemma {:induction false} SubCounts(a: seq<Span>, b: seq<Span>)
    requires Sub(a, b)
    ensures multiset(a) <= multiset(b)
    decreases |b|
  {
    if a != [] {
      var b' := b[..|b| - 1];
      assert b == b' + [b[|b| - 1]];
      if Sub(a, b') {
        SubCounts(a, b');
      } else {
        SubCounts(a[..|a| - 1], b');
        assert a == a[..|a| - 1] + [a[|a| - 1]];
      }
    }
  }

  // --- The tailer ---------------------------------------------------------------------------------------

  /** What can happen while the event watcher runs.  CancelInHand: cancelled while a delivered line waits on a
      full channel.  Gone: a tick finds no file, or another one, at the path; `next` is what is there when it is
      opened again. */
  datatype Happening = Grows(text: string) | Delivers | DeliversNil | CancelInHand | Ends | Ticks | Gone(next: string)

  predicate GrowsWhole(h: Happening) {
    (h.Grows? ==> Whole(h.text)) && (h.Gone? ==> Whole(h.next))
  }

  /** A file and how far it has been consumed. */
  datatype Mark = Mark(file: string, at: nat)

  /** Where an event leaves off, if it does not end the phase: the writer appends, or a line is consumed. */
  function Seen1(m: Mark, h: Happening): Mark {
    match h
    case Grows(text) => Mark(m.file + text, m.at)
    case Delivers => if m.at < |m.file| then Mark(m.file, LineEnd(m.file, m.at) + 1) else m
    case _ => m
  }

  function Seen(m: Mark, events: seq<Happening>): Mark {
    if events == [] then m else Seen1(Seen(m, events[..|events| - 1]), events[|events| - 1])
  }

  predicate Interrupts(h: Happening) {
    h.CancelInHand? || h.Ends? || h.Gone?
  }

  predicate Behind(m: Mark) {
    m.at < |m.file|
  }

  /** A tick comes while there is more to read, before anything else ends the phase. */
  predicate Stalls(m: Mark, events: seq<Happening>) {
    exists n :: 0 <= n < |events| && StallsAt(m, events, n)
  }

  predicate StallsAt(m: Mark, events: seq<Happening>, n: nat)
    requires n < |events|
  {
    events[n].Ticks? && Behind(Seen(m, events[..n])) && forall i :: 0 <= i < n ==> !Interrupts(events[i])
  }

  /** The phase goes on past these. */
  predicate GoesOn(m: Mark, events: seq<Happening>, n: nat)
    requires n <= |events|
  {
    forall i :: 0 <= i < n ==> !Interrupts(events[i]) && !(events[i].Ticks? && Behind(Seen(m, events[..i])))
  }

  lemma StallsHere(m: Mark, events: seq<Happening>, n: nat)
    requires n < |events| && GoesOn(m, events, n) && events[n].Ticks? && Behind(Seen(m, events[..n]))
    ensures Stalls(m, events)
  {
    hide Seen;
    assert StallsAt(m, events, n);
  }

  lemma NeverStalls(m: Mark, events: seq<Happening>, n: nat)
    requires n <= |events| && GoesOn(m, events, n) && (n < |events| ==> Interrupts(events[n]))
    ensures !Stalls(m, events)
  {
    hide Seen;
    forall i | 0 <= i < |events| ensures !StallsAt(m, events, i) {
      assert i < n ==> !(events[i].Ticks? && Behind(Seen(m, events[..i])));
    }
  }

  lemma StartsOut(m: Mark, events: seq<Happening>)
    ensures Seen(m, events[..0]) == m && GoesOn(m, events, 0)
  {
  }

  lemma GoesOneOn(m: Mark, events: seq<Happening>, n: nat)
    requires n < |events| && GoesOn(m, events, n)
    requires !Interrupts(events[n]) && !(events[n].Ticks? && Behind(Seen(m, events[..n])))
    ensures GoesOn(m, events, n + 1)
  {
  }

  lemma OneMoreSeen(m: Mark, events: seq<Happening>, n: nat)
    requires n < |events|
    ensures Seen(m, events[..n + 1]) == Seen1(Seen(m, events[..n]), events[n])
  {
    assert events[..n + 1][..n] == events[..n];
  }

  /** One turn of the outer loop.  A drain fails before opening, or after some lines, or not at all; `grows` is
      what is appended after each line it reads. */
  datatype Fault = NoFault | OpenFails | FailsAfter(lines: nat)

  datatype Round = Round(events: seq<Happening>, fault: Fault, grows: seq<string>)

  predicate RoundWhole(r: Round) {
    && (forall i :: 0 <= i < |r.events| ==> GrowsWhole(r.events[i]))
    && (forall i :: 0 <= i < |r.grows| ==> Whole(r.grows[i]))
  }

  /** From there the phase stalls, and the drain does not fail. */
  predicate CatchesUp(m: Mark, r: Round) {
    Stalls(m, r.events) && r.fault == NoFault
  }

  /** What was sent is the text at these spans. */
  predicate TextsOk(s: string, spans: seq<Span>, sent: seq<string>) {
    && |spans| == |sent|
    && forall k :: 0 <= k < |spans| ==> spans[k].from <= spans[k].to <= |s| && sent[k] == s[spans[k].from..spans[k].to]
  }

  lemma TextsGrow(s: string, more: string, spans: seq<Span>, sent: seq<string>)
    requires TextsOk(s, spans, sent)
    ensures TextsOk(s + more, spans, sent)
  {
    forall k | 0 <= k < |spans| ensures sent[k] == (s + more)[spans[k].from..spans[k].to] {
      SliceGrows(s, more, spans[k].from, spans[k].to);
    }
  }

  lemma SliceGrows(s: string, more: string, i: nat, j: nat)
    requires i <= j <= |s|
    ensures (s + more)[i..j] == s[i..j]
  {
  }

  lemma RoundMeans(r: Round)
    requires RoundWhole(r)
    ensures forall i :: 0 <= i < |r.events| ==> GrowsWhole(r.events[i])
    ensures forall i :: 0 <= i < |r.grows| ==> Whole(r.grows[i])
  {
  }

  /** A file that is gone, where tailing it began, and how far it had been consumed. */
  datatype Former = Former(file: string, start: nat, upTo: nat)

  /** Every non-blank line of it up to there has been sent. */
  ghost predicate AllSent(g: Former, sent: seq<string>) {
    forall x :: IsLine(g.file, g.start, g.upTo, x) ==> g.file[x.from..x.to] in sent
  }

  ghost predicate FormerOk(former: seq<Former>, sent: seq<string>) {
    forall i :: 0 <= i < |former| ==> AllSent(former[i], sent)
  }

  class Tail {
    var file: string
    var lastSize: nat
    var sent: seq<string>
    // Where the lines sent of this file lie in it, the first of them in `sent`, and where tailing it began.
    ghost var spans: seq<Span>
    ghost var mark: nat
    ghost var start: nat
    // The files that this one has replaced.
    ghost var former: seq<Former>

    /** lastSize is a line boundary, and every non-blank line from the start to there has been sent, in order;
        nothing was sent that is not a line of its file; and what was consumed of the files before was sent. */
    ghost predicate Valid()
      reads this
    {
      && Whole(file)
      && start <= lastSize <= |file| && Boundary(file, start) && Boundary(file, lastSize)
      && Sub(Between(file, start, lastSize), spans)
      && (forall x :: x in spans ==> x in Between(file, start, |file|))
      && mark <= |sent| && TextsOk(file, spans, sent[mark..])
      && FormerOk(former, sent)
    }

    /** Since an earlier state: the same file, grown, and consumed no less; or a later file. */
    twostate predicate Onward()
      reads this
    {
      && old(sent) <= sent && old(former) <= former
      && (former == old(former) ==>
            old(file) <= file && old(lastSize) <= lastSize && start == old(start) && mark == old(mark))
    }

    constructor (file: string)
      requires Whole(file)
      ensures Valid() && this.file == file && lastSize == start == |file| && sent == [] && former == []
    {
      this.file, lastSize, start, mark := file, |file|, |file|, 0;
      sent, spans, former := [], [], [];
    }

    /** The writer appends whole lines. */
    method Grow(text: string)
      requires Valid() && Whole(text)
      modifies this`file
      ensures Valid() && file == old(file) + text
      ensures forall pos :: start <= pos <= |old(file)| && Boundary(old(file), pos) ==>
                Boundary(file, pos) && Between(file, start, pos) == Between(old(file), start, pos)
    {
      hide Between, TextsOk;
      forall pos | start <= pos <= |file| ensures Between(file + text, start, pos) == Between(file, start, pos) {
        BetweenGrows(file, text, start, pos);
      }
      BetweenSplit(file + text, start, |file|, |file + text|);
      TextsGrow(file, text, spans, sent[mark..]);
      hide Sub;
      file := file + text;
    }

    /** Forwards the line at i. */
    method Send(line: string, ghost i: nat)
      requires Valid() && start <= i < |file| && Boundary(file, i)
      requires i < LineEnd(file, i) && line == file[i..LineEnd(file, i)]
      modifies this`sent, this`spans
      ensures Valid() && sent == old(sent) + [line] && spans == old(spans) + [Span(i, LineEnd(file, i))]
    {
      hide Between, Sub, LineEnd, Whole, Boundary, AllSent;
      ghost var span := Span(i, LineEnd(file, i));
      LineIsListed(file, start, i);
      SubMore(Between(file, start, lastSize), spans, span);
      forall g | 0 <= g < |former| ensures AllSent(former[g], sent + [line]) {
        StaysSent(former[g], sent, line);
      }
      assert (sent + [line])[mark..] == sent[mark..] + [line];
      sent := sent + [line];
      spans := spans + [span];
    }

    lemma FormerSent()
      requires Valid()
      ensures AllSent(Former(file, start, lastSize), sent)
    {
      hide Between, Sub, IsLine, TextsOk, FormerOk;
      NothingLost();
    }

    /** The file is gone: start over on what is there next. */
    method Reopen(next: string)
      requires Valid() && Whole(next)
      modifies this
      ensures Valid() && Onward() && file == next && lastSize == start == 0 && sent == old(sent)
      ensures former == old(former) + [Former(old(file), old(start), old(lastSize))]
    {
      hide Between, TextsOk, AllSent, Sub, Whole, LineEnd;
      BetweenNone(next, 0, 0);
      NothingSubs();
      ghost var g := Former(file, start, lastSize);
      FormerSent();
      assert sent[|sent|..] == [];
      NoTexts(next);
      file, lastSize := next, 0;
      former, start, mark, spans := former + [g], 0, |sent|, [];
    }

    /** Where tailing stands. */
    function Here(): Mark
      reads this
    {
      Mark(file, lastSize)
    }

    /** The event-driven phase, up to a stall, the watcher's end, the loss of the file, or cancellation: the first
        of them, at event `n`. */
    method TailFileHybridEvent(events: seq<Happening>) returns (stalled: bool, ghost n: nat)
      requires Valid() && forall i :: 0 <= i < |events| ==> GrowsWhole(events[i])
      modifies this
      ensures Valid() && Onward()
      ensures stalled ==> lastSize < |file| && former == old(former)
      ensures stalled <==> Stalls(old(Here()), events)
      ensures n <= |events| && GoesOn(old(Here()), events, n)
      ensures n < |events| ==> if stalled then events[n].Ticks? else Interrupts(events[n])
      ensures if n < |events| && events[n].Gone? then Here() == Mark(events[n].next, 0)
              else Here() == Seen(old(Here()), events[..n]) && former == old(former)
    {
      hide Seen, Stalls, GoesOn, Between, Sub, LineEnd, Whole, Boundary, TextsOk, FormerOk, AllSent;
      ghost var start := Here();
      StartsOut(start, events);
      for i := 0 to |events|
        invariant GoesOn(start, events, i) && Here() == Seen(start, events[..i])
        invariant Valid() && Onward() && former == old(former)
      {
        n := i;
        OneMoreSeen(start, events, i);
        match events[i] {
          case Grows(text) =>
            Grow(text);
          case Delivers =>
            if lastSize < |file| {
              DeliverNext();
            }
          case DeliversNil =>
          case CancelInHand =>
            NeverStalls(start, events, i);
            return false, n;
          case Ends =>
            NeverStalls(start, events, i);
            return false, n;
          case Ticks =>
            if |file| > lastSize {
              StallsHere(start, events, i);
              return true, n;
            }
          case Gone(next) =>
            NeverStalls(start, events, i);
            Reopen(next);
            return false, n;
        }
        GoesOneOn(start, events, i);
      }
      n := |events|;
      NeverStalls(start, events, n);
      return false, n;
    }

    /** A delivered line: the offset advances by its length and terminator only once it is forwarded. */
    method DeliverNext()
      requires Valid() && lastSize < |file|
      modifies this`lastSize, this`sent, this`spans
      ensures Valid() && old(lastSize) < lastSize && old(sent) <= sent
      ensures lastSize == LineEnd(file, old(lastSize)) + 1
    {
      hide Between, Sub, LineEnd, Whole, Boundary, TextsOk;
      var line := file[lastSize..LineEnd(file, lastSize)];
      NextLine(file, start, lastSize);
      var advance := |line| + 1;
      if |line| > 0 {
        SubMore(Between(file, start, lastSize), spans, Span(lastSize, LineEnd(file, lastSize)));
        Send(line, lastSize);
      }
      lastSize := lastSize + advance;
    }

    /** Reads the line at pos, forwards it unless it is blank, and says where the next begins. */
    method ForwardNext(pos: nat) returns (next: nat)
      requires Valid() && start <= pos < |file| && Boundary(file, pos) && Sub(Between(file, start, pos), spans)
      modifies this`sent, this`spans
      ensures Valid() && old(sent) <= sent
      ensures pos < next <= |file| && Boundary(file, next) && Sub(Between(file, start, next), spans)
    {
      hide Between, Sub, LineEnd, Whole, Boundary, TextsOk;
      var line := file[pos..LineEnd(file, pos)];
      NextLine(file, start, pos);
      next := pos + |line| + 1;
      if |line| > 0 {
        SubMore(Between(file, start, pos), spans, Span(pos, LineEnd(file, pos)));
        Send(line, pos);
      }
    }

    /** Reads from lastSize to the end of the file as it is when the end is met; only then does lastSize move. */
    method DrainByPoll(fault: Fault, grows: seq<string>) returns (ok: bool)
      requires Valid() && forall i :: 0 <= i < |grows| ==> Whole(grows[i])
      modifies this
      ensures Valid() && Onward() && former == old(former)
      ensures ok ==> lastSize == |file|
      ensures !ok ==> lastSize == old(lastSize)
      ensures fault == NoFault ==> ok
    {
      hide Between, Sub, LineEnd, TextsOk, FormerOk, AllSent, Whole;
      if fault.OpenFails? {
        return false;
      }
      var pos, n := lastSize, 0;
      while pos < |file|
        invariant Valid() && Onward() && former == old(former) && lastSize == old(lastSize)
        invariant lastSize <= pos <= |file| && Boundary(file, pos)
        invariant Sub(Between(file, start, pos), spans)
        decreases if n < |grows| then |grows| - n else 0, |file| - pos
      {
        if fault.FailsAfter? && n >= fault.lines {
          return false;
        }
        pos := ForwardNext(pos);
        if n < |grows| {
          Grow(grows[n]);
        }
        n := n + 1;
      }
      if fault.FailsAfter? {
        return false;
      }
      lastSize := pos;
      return true;
    }

    /** One turn of the outer loop: an event-driven phase, and a drain whenever it stalled. */
    method OneRound(r: Round)
      requires Valid() && RoundWhole(r)
      modifies this
      ensures Valid() && Onward()
      ensures CatchesUp(old(Here()), r) ==> lastSize == |file| && former == old(former)
    {
      RoundMeans(r);
      hide Between, Sub, LineEnd, TextsOk, FormerOk, AllSent, Whole, Boundary, RoundWhole, GrowsWhole, Seen, Stalls;
      hide GoesOn;
      var stalled, _ := TailFileHybridEvent(r.events);
      if stalled {
        var ok := DrainByPoll(r.fault, r.grows);
      }
    }

    /** The outer loop.  `marks` says where each round began, and the last one ended. */
    method TailFileHybrid(rounds: seq<Round>) returns (ghost marks: seq<Mark>)
      requires Valid() && forall i :: 0 <= i < |rounds| ==> RoundWhole(rounds[i])
      modifies this
      ensures Valid() && Onward()
      ensures |marks| == |rounds| + 1 && marks[0] == old(Here()) && marks[|rounds|] == Here()
      ensures forall i :: 0 <= i < |rounds| && CatchesUp(marks[i], rounds[i]) ==> !Behind(marks[i + 1])
      ensures rounds != [] && CatchesUp(marks[|rounds| - 1], rounds[|rounds| - 1]) ==>
                lastSize == |file| && forall x :: IsLine(file, start, |file|, x) ==> file[x.from..x.to] in sent
    {
      hide Between, Sub, LineEnd, TextsOk, FormerOk, AllSent, Whole, Boundary, RoundWhole, GrowsWhole, CatchesUp;
      hide IsLine;
      marks := [Here()];
      for i := 0 to |rounds|
        invariant Valid() && Onward()
        invariant |marks| == i + 1 && marks[0] == old(Here()) && marks[i] == Here()
        invariant forall j :: 0 <= j < i && CatchesUp(marks[j], rounds[j]) ==> !Behind(marks[j + 1])
      {
        OneRound(rounds[i]);
        marks := marks + [Here()];
      }
      NothingLost();
    }

    /** The same of every file that was replaced, up to where it had been consumed. */
    lemma NothingLostBefore(i: nat, x: Span)
      requires Valid() && i < |former| && IsLine(former[i].file, former[i].start, former[i].upTo, x)
      ensures former[i].file[x.from..x.to] in sent
    {
      assert AllSent(former[i], sent);
    }

    /** What the invariant says: the non-blank lines between the start and lastSize have all been sent, each at
        its own place and in that order. */
    lemma NothingLost()
      requires Valid()
      ensures multiset(Between(file, start, lastSize)) <= multiset(spans)
      ensures forall x :: IsLine(file, start, lastSize, x) ==> x.to <= |file| && file[x.from..x.to] in sent
    {
      hide Between, Sub, IsLine, AllSent, Boundary, Whole, TextsOk, FormerOk;
      var lines := Between(file, start, lastSize);
      SubCounts(lines, spans);
      forall x | IsLine(file, start, lastSize, x) ensures x.from <= x.to <= |file| && file[x.from..x.to] in sent {
        BetweenMeans(file, start, lastSize, x);
        assert multiset(lines)[x] >= 1 && multiset(spans)[x] >= 1;
        var k :| 0 <= k < |spans| && spans[k] == x;
        TextAt(file, spans, sent[mark..], k);
        assert sent[mark + k] == file[x.from..x.to];
      }
    }

    /** Nothing is sent that is not a non-blank line of the file after the start. */
    lemma NothingInvented(k: nat)
      requires Valid() && mark <= k < |sent|
      ensures mark + |spans| == |sent|
      ensures var x := spans[k - mark];
              IsLine(file, start, |file|, x) && x.from <= x.to <= |file| && sent[k] == file[x.from..x.to]
    {
      hide Between, Sub, IsLine, AllSent, TextsOk, FormerOk;
      SameLength(file, spans, sent[mark..]);
      TextAt(file, spans, sent[mark..], k - mark);
      assert sent[mark..][k - mark] == sent[k];
      assert spans[k - mark] in spans;
      BetweenMeans(file, start, |file|, spans[k - mark]);
    }
  }

  lemma SameLength(s: string, spans: seq<Span>, sent: seq<string>)
    requires TextsOk(s, spans, sent)
    ensures |spans| == |sent|
  {
  }

  lemma TextAt(s: string, spans: seq<Span>, sent: seq<string>, k: nat)
    requires TextsOk(s, spans, sent) && k < |spans|
    ensures k < |sent| && spans[k].from <= spans[k].to <= |s| && sent[k] == s[spans[k].from..spans[k].to]
  {
  }

  lemma NoTexts(s: string)
    ensures TextsOk(s, [], [])
  {
  }

  lemma StaysSent(g: Former, sent: seq<string>, line: string)
    requires AllSent(g, sent)
    ensures AllSent(g, sent + [line])
  {
    hide IsLine;
    forall x | IsLine(g.file, g.start, g.upTo, x)
      ensures x.from <= x.to <= |g.file| && g.file[x.from..x.to] in sent + [line]
    {
      LineBounds(g.file, g.start, g.upTo, x);
    }
  }

  lemma LineBounds(s: string, i: nat, j: nat, x: Span)
    requires IsLine(s, i, j, x)
    ensures x.from <= x.to <= |s|
  {
  }

  lemma LineIsListed(s: string, start: nat, i: nat)
    requires Whole(s) && start <= i < |s| && Boundary(s, i) && LineEnd(s, i) > i
    ensures Span(i, LineEnd(s, i)) in Between(s, start, |s|)
  {
    hide Between, LineEnd, Whole, Boundary;
    NextLine(s, start, i);
    BetweenSplit(s, start, LineEnd(s, i) + 1, |s|);
    var before := Between(s, start, i);
    assert (before + [Span(i, LineEnd(s, i))])[|before|] == Span(i, LineEnd(s, i));
  }

  /** A non-blank line that begins in [i, j): from a boundary to the next '\n'. */
  predicate IsLine(s: string, i: nat, j: nat, x: Span) {
    && i <= x.from < x.to < j <= |s| && Boundary(s, x.from) && s[x.to] == '\n'
    && forall m :: x.from <= m < x.to ==> s[m] != '\n'
  }

  /** Between lists exactly the non-blank lines. */
  lemma {:induction false} BetweenMeans(s: string, i: nat, j: nat, x: Span)
    requires Whole(s) && i <= j <= |s| && Boundary(s, i) && Boundary(s, j)
    ensures x in Between(s, i, j) <==> IsLine(s, i, j, x)
    decreases |s| - i
  {
    hide Between, LineEnd, LineAt, Whole, Boundary;
    if i < j {
      EndsBefore(s, i, j);
      WholeEnds(s, i);
      BetweenCons(s, i, j);
      FirstOrLater(s, i, j, x);
      BetweenMeans(s, LineEnd(s, i) + 1, j, x);
    } else {
      BetweenNone(s, i, i);
    }
  }

  lemma FirstOrLater(s: string, i: nat, j: nat, x: Span)
    requires i < j <= |s| && Boundary(s, i) && LineEnd(s, i) < j
    ensures IsLine(s, i, j, x) <==> x in LineAt(s, i) || IsLine(s, LineEnd(s, i) + 1, j, x)
  {
    LineEndMeans(s, i);
    var e := LineEnd(s, i);
    if IsLine(s, i, j, x) && x.from <= e {
      assert x.from == i;
      assert x.to == e;
    }
  }
}
