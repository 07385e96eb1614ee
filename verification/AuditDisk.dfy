/**
 * The monthly segment files of src/audit/audit-ledger.js: appends with a clock that may run backwards, writes that a
 * crash cuts short, healing, and pruning; and what every run of them leaves on disk.
 */
module AuditDisk {
  import opened Basics
  import opened AuditChain

  /** What follows the last newline of a segment. A write that lost only its newline still parses. */
  datatype Tail = NoTail | Fragment | Unterminated(entry: Entry)

  /** One file, named by its month. */
  datatype Segment = Segment(month: int, lines: seq<Line>, tail: Tail)

  datatype Request = Request(nodeId: int, writer: Writer, kind: int, data: int)

  /** The clock at one append: the instant, and the month its ISO form names. */
  datatype Clock = Clock(at: int, month: int)

  /** How far a write gets. Only Acked returns to the caller. */
  datatype Written = Acked | Whole | NoNewline | SomeBytes | EmptyFile | Nothing

  /** The convenience readers' view: complete lines only. */
  function Complete(segs: seq<Segment>): seq<Line> {
    if segs == [] then [] else Complete(segs[..|segs| - 1]) + segs[|segs| - 1].lines
  }

  function TailLines(tail: Tail): seq<Line> {
    match tail
    case NoTail => []
    case Fragment => [Garbled]
    case Unterminated(e) => [Parsed(e)]
  }

  /** The auditor's view: an unhealed tail is a line too. */
  function Raw(segs: seq<Segment>): seq<Line> {
    if segs == [] then [] else Raw(segs[..|segs| - 1]) + segs[|segs| - 1].lines + TailLines(segs[|segs| - 1].tail)
  }

  /** Files in name order, torn only at the very end. */
  predicate InOrder(segs: seq<Segment>) {
    && (forall i, j {:trigger segs[i], segs[j]} | 0 <= i < j < |segs| :: segs[i].month < segs[j].month)
    && (forall i {:trigger segs[i]} | 0 <= i < |segs| - 1 :: segs[i].tail == NoTail)
  }

  function Healed(segs: seq<Segment>): seq<Segment> {
    if segs == [] then segs else segs[|segs| - 1 := segs[|segs| - 1].(tail := NoTail)]
  }

  /** The newest segment, the only one append reads, has an entry to go on from whenever there is one. */
  predicate Anchored(segs: seq<Segment>) {
    Complete(segs) == [] || segs[|segs| - 1].lines != []
  }

  /** _lastValidEntry of the newest segment; a complete line that does not parse fails the append. */
  predicate Readable(segs: seq<Segment>) {
    segs == [] || forall line | line in segs[|segs| - 1].lines :: line.Parsed?
  }

  function LastEntry(segs: seq<Segment>): Option<Entry>
    requires Readable(segs)
  {
    if segs == [] || segs[|segs| - 1].lines == [] then None
    else Some(segs[|segs| - 1].lines[|segs[|segs| - 1].lines| - 1].entry)
  }

  function NewEntry(last: Option<Entry>, r: Request, at: int): Entry {
    var body := Body(if last.Some? then last.value.body.seqNo + 1 else 1, at, r.nodeId, r.writer, r.kind, r.data,
                     if last.Some? then Some(last.value.hash) else None);
    Entry(body, Of(body))
  }

  /** Into whichever of the clock's month and the newest segment sorts later. */
  function Put(segs: seq<Segment>, month: int, lines: seq<Line>, tail: Tail): seq<Segment> {
    if segs != [] && segs[|segs| - 1].month >= month
    then segs[|segs| - 1 := Segment(segs[|segs| - 1].month, segs[|segs| - 1].lines + lines, tail)]
    else segs + [Segment(month, lines, tail)]
  }

  function LinesOf(written: Written, e: Entry): seq<Line> {
    if written.Acked? || written.Whole? then [Parsed(e)] else []
  }

  function TailOf(written: Written, e: Entry): Tail {
    match written
    case SomeBytes => Fragment
    case NoNewline => Unterminated(e)
    case _ => NoTail
  }

  function Append(segs: seq<Segment>, r: Request, clock: Clock, written: Written): seq<Segment> {
    if !Readable(segs) || written.Nothing? then Healed(segs)
    else
      var e := NewEntry(LastEntry(segs), r, clock.at);
      Put(Healed(segs), clock.month, LinesOf(written, e), TailOf(written, e))
  }

  /** Whole segments whose month ended before the cutoff; never the newest. */
  function Kept(segs: seq<Segment>, monthEnd: int -> int, cutoff: int): seq<Segment> {
    if segs == [] then []
    else (if monthEnd(segs[0].month) < cutoff then [] else [segs[0]]) + Kept(segs[1..], monthEnd, cutoff)
  }

  function Prune(segs: seq<Segment>, monthEnd: int -> int, cutoff: int): seq<Segment> {
    if segs == [] then []
    else Kept(segs[..|segs| - 1], monthEnd, cutoff) + [segs[|segs| - 1]]
  }

  // ---- One append ----

  lemma OneAfterAnother<T>(a: seq<T>, b: seq<T>, c: seq<T>)
    ensures a + b + c == a + (b + c)
  {
  }

  lemma LastOfBoth<T>(a: seq<T>, b: seq<T>)
    requires b != []
    ensures (a + b)[..|a + b| - 1] == a + b[..|b| - 1] && (a + b)[|a + b| - 1] == b[|b| - 1]
  {
  }

  lemma {:induction false} CompleteConcat(a: seq<Segment>, b: seq<Segment>)
    ensures Complete(a + b) == Complete(a) + Complete(b)
  {
    if b == [] {
      assert a + b == a && Complete(a) + [] == Complete(a);
    } else {
      var init, last := b[..|b| - 1], b[|b| - 1];
      CompleteConcat(a, init);
      LastOfBoth(a, b);
      OneAfterAnother(Complete(a), Complete(init), last.lines);
    }
  }

  /** Torn only at the end, the raw view is the complete one and then the tail. */
  lemma {:induction false} RawIsCompleteAndTail(segs: seq<Segment>)
    requires InOrder(segs)
    ensures Raw(segs) == Complete(segs) + (if segs == [] then [] else TailLines(segs[|segs| - 1].tail))
  {
    if segs != [] {
      var init := segs[..|segs| - 1];
      InitInOrder(segs);
      RawIsCompleteAndTail(init);
      assert Raw(init) == Complete(init) + [] == Complete(init);
    }
  }

  lemma InitInOrder(segs: seq<Segment>)
    requires InOrder(segs) && segs != []
    ensures var init := segs[..|segs| - 1]; InOrder(init) && (init != [] ==> TailLines(init[|init| - 1].tail) == [])
  {
    var init := segs[..|segs| - 1];
    if init != [] {
      assert init[|init| - 1] == segs[|segs| - 2];
    }
  }

  lemma PutCompletes(segs: seq<Segment>, month: int, lines: seq<Line>, tail: Tail)
    requires InOrder(segs) && (segs != [] ==> segs[|segs| - 1].tail == NoTail)
    ensures var t := Put(segs, month, lines, tail);
            && InOrder(t) && t != [] && t[|t| - 1].tail == tail && Complete(t) == Complete(segs) + lines
            && (t[|t| - 1].lines == lines || (segs != [] && t[|t| - 1].lines == segs[|segs| - 1].lines + lines))
  {
    var t := Put(segs, month, lines, tail);
    if |t| == |segs| {
      assert t[..|t| - 1] == segs[..|segs| - 1];
    } else {
      assert t[..|t| - 1] == segs;
    }
  }

  /** Into the newest segment itself, unless the clock's month sorts later. */
  lemma PutIntoNewest(segs: seq<Segment>, month: int, lines: seq<Line>, tail: Tail)
    requires segs != []
    ensures var t := Put(segs, month, lines, tail);
            t != [] && (month <= segs[|segs| - 1].month ==> t[|t| - 1].lines == segs[|segs| - 1].lines + lines)
  {
  }

  lemma HealedKeeps(segs: seq<Segment>)
    requires InOrder(segs)
    ensures InOrder(Healed(segs)) && Complete(Healed(segs)) == Complete(segs) && |Healed(segs)| == |segs|
    ensures segs != [] ==> Healed(segs)[|segs| - 1] == segs[|segs| - 1].(tail := NoTail)
  {
    if segs != [] {
      assert Healed(segs)[..|segs| - 1] == segs[..|segs| - 1];
    }
  }

  lemma LastOfNewest(segs: seq<Segment>)
    requires segs != [] && segs[|segs| - 1].lines != []
    ensures Complete(segs) != []
    ensures Complete(segs)[|Complete(segs)| - 1] == segs[|segs| - 1].lines[|segs[|segs| - 1].lines| - 1]
  {
  }

  /** One more entry continues a chain exactly when it is linked to the last one. */
  lemma ChainGrows(lines: seq<Line>, e: Entry)
    requires Chain(lines) && Sound(e)
    ensures Chain(lines + [Parsed(e)]) <==> lines == [] || Linked(lines[|lines| - 1].entry, e)
  {
    var more := lines + [Parsed(e)];
    assert forall line | line in more :: line in lines || line == Parsed(e);
    var es, all := Entries(lines), Entries(more);
    assert forall i | 0 <= i < |es| :: all[i] == es[i];
    if lines == [] || Linked(lines[|lines| - 1].entry, e) {
      forall i | 0 < i < |all| ensures LinkedAt(all, i) {
        assert i < |es| ==> LinkedAt(es, i);
      }
    }
    if Chain(more) && lines != [] {
      assert LinkedAt(all, |es|);
    }
  }

  /** However far the write got, the complete lines are those before it and, when it landed whole, the new entry. */
  lemma AppendAdds(segs: seq<Segment>, r: Request, clock: Clock, written: Written)
    requires InOrder(segs) && Readable(segs)
    ensures var t, e := Append(segs, r, clock, written), NewEntry(LastEntry(segs), r, clock.at);
            && InOrder(t) && Complete(t) == Complete(segs) + LinesOf(written, e)
            && (!written.Nothing? ==> t != [] && t[|t| - 1].tail == TailOf(written, e))
            && (segs != [] && (written.Nothing? || clock.month <= segs[|segs| - 1].month) ==>
                  t != [] && t[|t| - 1].lines == segs[|segs| - 1].lines + LinesOf(written, e))
            && (LinesOf(written, e) != [] ==> t != [] && t[|t| - 1].lines != [])
  {
    HealedKeeps(segs);
    var e := NewEntry(LastEntry(segs), r, clock.at);
    if written.Nothing? {
      assert Complete(segs) + [] == Complete(segs);
      assert segs != [] ==> segs[|segs| - 1].lines + [] == segs[|segs| - 1].lines;
    } else {
      var healed, lines, tail := Healed(segs), LinesOf(written, e), TailOf(written, e);
      PutCompletes(healed, clock.month, lines, tail);
      if segs != [] {
        PutIntoNewest(healed, clock.month, lines, tail);
      }
    }
  }

  /** What an auditor reads after a write: the complete lines from before, and all that the write left. */
  lemma RawAfterAppend(segs: seq<Segment>, r: Request, clock: Clock, written: Written)
    requires InOrder(segs) && Readable(segs) && !written.Nothing?
    ensures var e := NewEntry(LastEntry(segs), r, clock.at);
            Raw(Append(segs, r, clock, written))
                == Complete(segs) + (LinesOf(written, e) + TailLines(TailOf(written, e)))
  {
    var t, e := Append(segs, r, clock, written), NewEntry(LastEntry(segs), r, clock.at);
    AppendAdds(segs, r, clock, written);
    RawIsCompleteAndTail(t);
    OneAfterAnother(Complete(segs), LinesOf(written, e), TailLines(TailOf(written, e)));
  }

  /** The whole entry is there to be read, with or without its newline. */
  lemma EntryIsRead(e: Entry)
    ensures LinesOf(Acked, e) + TailLines(TailOf(Acked, e)) == [Parsed(e)]
    ensures LinesOf(NoNewline, e) + TailLines(TailOf(NoNewline, e)) == [Parsed(e)]
  {
  }

  /** The next entry goes on the chain exactly when append could see its last entry. */
  lemma NextEntryGoesOn(segs: seq<Segment>, r: Request, at: int)
    requires Chain(Complete(segs)) && Readable(segs)
    ensures Chain(Complete(segs) + [Parsed(NewEntry(LastEntry(segs), r, at))]) <==> Anchored(segs)
  {
    ChainGrows(Complete(segs), NewEntry(LastEntry(segs), r, at));
    if Complete(segs) != [] && segs[|segs| - 1].lines != [] {
      LastOfNewest(segs);
    }
  }

  /**
   * verify() passes after an acknowledged append if and only if the newest segment held a complete line (or nothing was
   * retained): when the first line of a new segment was torn away, the next entry restarts at 1 and breaks the chain.
   */
  lemma AppendVerifiesExactlyWhenAnchored(segs: seq<Segment>, r: Request, clock: Clock)
    requires InOrder(segs) && Chain(Complete(segs))
    ensures Readable(segs) && (Chain(Raw(Append(segs, r, clock, Acked))) <==> Anchored(segs))
  {
    ChainIsReadable(segs);
    RawAfterAppend(segs, r, clock, Acked);
    EntryIsRead(NewEntry(LastEntry(segs), r, clock.at));
    NextEntryGoesOn(segs, r, clock.at);
  }

  lemma ChainIsReadable(segs: seq<Segment>)
    requires Chain(Complete(segs))
    ensures Readable(segs)
  {
    if segs != [] {
      assert forall line | line in segs[|segs| - 1].lines :: line in Complete(segs);
    }
  }

  /**
   * A write that lost only its newline passes verify(), and the next append still heals it away: it was never
   * acknowledged.
   */
  lemma UnterminatedEntryVerifiesThenGoes(segs: seq<Segment>, r: Request, clock: Clock, r': Request, clock': Clock)
    requires InOrder(segs) && Chain(Complete(segs)) && Anchored(segs)
    ensures var t := Append(segs, r, clock, NoNewline);
            && InOrder(t) && Chain(Raw(t)) && |Raw(t)| == |Complete(segs)| + 1 && Readable(t)
            && Complete(Append(t, r', clock', Acked))
                == Complete(segs) + [Parsed(NewEntry(LastEntry(t), r', clock'.at))]
  {
    var t := Append(segs, r, clock, NoNewline);
    UnterminatedEntryVerifies(segs, r, clock);
    ChainIsReadable(t);
    AppendAdds(t, r', clock', Acked);
  }

  lemma UnterminatedEntryVerifies(segs: seq<Segment>, r: Request, clock: Clock)
    requires InOrder(segs) && Chain(Complete(segs)) && Anchored(segs)
    ensures var t := Append(segs, r, clock, NoNewline);
            InOrder(t) && Complete(t) == Complete(segs) && Chain(Raw(t)) && |Raw(t)| == |Complete(segs)| + 1
  {
    ChainIsReadable(segs);
    AppendAdds(segs, r, clock, NoNewline);
    assert Complete(segs) + [] == Complete(segs);
    RawAfterAppend(segs, r, clock, NoNewline);
    EntryIsRead(NewEntry(LastEntry(segs), r, clock.at));
    NextEntryGoesOn(segs, r, clock.at);
  }

  // ---- Pruning ----

  ghost predicate Increasing(monthEnd: int -> int) {
    forall m, n {:trigger monthEnd(m), monthEnd(n)} :: m < n ==> monthEnd(m) < monthEnd(n)
  }

  /** From the d-th file on, and no earlier, months end at or after the cutoff. */
  predicate CutAt(segs: seq<Segment>, monthEnd: int -> int, cutoff: int, d: nat) {
    forall i {:trigger segs[i]} | 0 <= i < |segs| :: d <= i <==> monthEnd(segs[i].month) >= cutoff
  }

  lemma {:induction false} KeptIsSuffix(segs: seq<Segment>, monthEnd: int -> int, cutoff: int) returns (d: nat)
    requires InOrder(segs) && Increasing(monthEnd)
    ensures d <= |segs| && Kept(segs, monthEnd, cutoff) == segs[d..] && CutAt(segs, monthEnd, cutoff, d)
  {
    if segs == [] {
      d := 0;
    } else if monthEnd(segs[0].month) < cutoff {
      assert InOrder(segs[1..]);
      var rest := KeptIsSuffix(segs[1..], monthEnd, cutoff);
      d := rest + 1;
      CutOneLater(segs, monthEnd, cutoff, rest);
      assert segs[1..][rest..] == segs[d..];
    } else {
      d := 0;
      AllFromHere(segs, monthEnd, cutoff);
      AllKept(segs, monthEnd, cutoff);
    }
  }

  lemma CutOneLater(segs: seq<Segment>, monthEnd: int -> int, cutoff: int, d: nat)
    requires segs != [] && monthEnd(segs[0].month) < cutoff && CutAt(segs[1..], monthEnd, cutoff, d)
    ensures CutAt(segs, monthEnd, cutoff, d + 1)
  {
    forall i | 0 <= i < |segs| ensures d + 1 <= i <==> monthEnd(segs[i].month) >= cutoff {
      if i > 0 {
        assert segs[i] == segs[1..][i - 1];
      }
    }
  }

  lemma AllFromHere(segs: seq<Segment>, monthEnd: int -> int, cutoff: int)
    requires InOrder(segs) && Increasing(monthEnd) && segs != [] && monthEnd(segs[0].month) >= cutoff
    ensures CutAt(segs, monthEnd, cutoff, 0)
  {
    forall i | 0 <= i < |segs| ensures monthEnd(segs[i].month) >= cutoff {
      assert i > 0 ==> segs[0].month < segs[i].month;
    }
  }

  lemma {:induction false} AllKept(segs: seq<Segment>, monthEnd: int -> int, cutoff: int)
    requires CutAt(segs, monthEnd, cutoff, 0)
    ensures Kept(segs, monthEnd, cutoff) == segs
  {
    if segs != [] {
      assert forall i | 0 <= i < |segs[1..]| :: segs[1..][i] == segs[i + 1];
      AllKept(segs[1..], monthEnd, cutoff);
      assert segs == [segs[0]] + segs[1..];
    }
  }

  lemma SuffixInOrder(segs: seq<Segment>, d: nat)
    requires InOrder(segs) && d <= |segs|
    ensures InOrder(segs[d..])
  {
  }

  /**
   * Prune removes a prefix of the files: exactly those whose month ended before the cutoff, but never the newest one.
   */
  lemma PruneDropsFiles(segs: seq<Segment>, monthEnd: int -> int, cutoff: int) returns (d: nat)
    requires InOrder(segs) && Increasing(monthEnd)
    ensures d <= |segs| && Prune(segs, monthEnd, cutoff) == segs[d..] && (segs != [] ==> d < |segs|)
    ensures forall i {:trigger segs[i]} | 0 <= i < |segs| ::
              d <= i <==> monthEnd(segs[i].month) >= cutoff || i == |segs| - 1
  {
    if segs == [] {
      d := 0;
    } else {
      var init := segs[..|segs| - 1];
      assert InOrder(init);
      d := KeptIsSuffix(init, monthEnd, cutoff);
      assert init[d..] + [segs[|segs| - 1]] == segs[d..];
      assert forall i | 0 <= i < |init| :: segs[i] == init[i];
    }
  }

  lemma {:induction false} KeptExactly(segs: seq<Segment>, monthEnd: int -> int, cutoff: int, seg: Segment)
    ensures seg in Kept(segs, monthEnd, cutoff) <==> seg in segs && monthEnd(seg.month) >= cutoff
  {
    if segs != [] {
      KeptExactly(segs[1..], monthEnd, cutoff, seg);
      assert segs == [segs[0]] + segs[1..];
    }
  }

  /** What is within retention survives a prune, the newest file does, and nothing else. */
  lemma PruneKeepsExactly(segs: seq<Segment>, monthEnd: int -> int, cutoff: int, seg: Segment)
    ensures seg in Prune(segs, monthEnd, cutoff) <==>
              seg in segs && (monthEnd(seg.month) >= cutoff || seg == segs[|segs| - 1])
  {
    if segs != [] {
      KeptExactly(segs[..|segs| - 1], monthEnd, cutoff, seg);
      assert segs == segs[..|segs| - 1] + [segs[|segs| - 1]];
    }
  }

  /** With the files goes a prefix of the entries; what the newest file holds stays. */
  lemma PruneDropsAPrefix(segs: seq<Segment>, monthEnd: int -> int, cutoff: int) returns (n: nat)
    requires InOrder(segs) && Increasing(monthEnd)
    ensures var t := Prune(segs, monthEnd, cutoff);
            && n <= |Complete(segs)| && Complete(t) == Complete(segs)[n..] && InOrder(t)
            && (segs != [] ==> t != [] && t[|t| - 1] == segs[|segs| - 1])
  {
    var d := PruneDropsFiles(segs, monthEnd, cutoff);
    SuffixInOrder(segs, d);
    assert segs == segs[..d] + segs[d..];
    CompleteConcat(segs[..d], segs[d..]);
    n := |Complete(segs[..d])|;
  }

  // ---- Runs ----

  datatype Op = AppendOp(r: Request, clock: Clock, written: Written) | PruneOp(cutoff: int)

  /**
   * The disk, beside every entry ever written whole, in the order of the writes, and how many of them pruning has
   * dropped.
   */
  datatype Disk = Disk(segs: seq<Segment>, history: seq<Line>, dropped: nat)

  predicate Lands(op: Op) {
    op.AppendOp? && (op.written == Acked || op.written == Whole)
  }

  function Step(d: Disk, op: Op, monthEnd: int -> int): Disk {
    match op
    case AppendOp(r, clock, written) =>
      Disk(Append(d.segs, r, clock, written),
           if Lands(op) && Readable(d.segs) then d.history + [Parsed(NewEntry(LastEntry(d.segs), r, clock.at))]
           else d.history, d.dropped)
    case PruneOp(cutoff) =>
      var kept := Prune(d.segs, monthEnd, cutoff);
      Disk(kept, d.history, d.dropped
          + if |Complete(kept)| <= |Complete(d.segs)| then |Complete(d.segs)| - |Complete(kept)| else 0)
  }

  function Run(ops: seq<Op>, monthEnd: int -> int): Disk {
    if ops == [] then Disk([], [], 0) else Step(Run(ops[..|ops| - 1], monthEnd), ops[|ops| - 1], monthEnd)
  }

  /** Before every operation the newest segment holds a complete line, or nothing is retained. */
  predicate AlwaysAnchored(ops: seq<Op>, monthEnd: int -> int) {
    ops == [] ||
    (AlwaysAnchored(ops[..|ops| - 1], monthEnd) && Anchored(Run(ops[..|ops| - 1], monthEnd).segs))
  }

  ghost predicate OneChain(d: Disk) {
    && InOrder(d.segs) && Chain(d.history)
    && d.dropped <= |d.history| && Complete(d.segs) == d.history[d.dropped..]
    && (d.history != [] ==> d.dropped < |d.history|)
  }

  lemma ChainSuffix(lines: seq<Line>, n: nat)
    requires Chain(lines) && n <= |lines|
    ensures Chain(lines[n..])
  {
    assert forall line | line in lines[n..] :: line in lines;
    ChainParts(Entries(lines), n, |lines|);
    assert Entries(lines[n..]) == Entries(lines)[n..|lines|];
  }

  lemma AppendKeepsOneChain(d: Disk, op: Op, monthEnd: int -> int)
    requires OneChain(d) && Anchored(d.segs) && op.AppendOp?
    ensures OneChain(Step(d, op, monthEnd))
  {
    ChainSuffix(d.history, d.dropped);
    ChainIsReadable(d.segs);
    AppendAdds(d.segs, op.r, op.clock, op.written);
    if Lands(op) {
      HistoryGrows(d, NewEntry(LastEntry(d.segs), op.r, op.clock.at));
    }
  }

  lemma HistoryGrows(d: Disk, e: Entry)
    requires OneChain(d) && Anchored(d.segs) && Readable(d.segs) && Sound(e)
    requires LastEntry(d.segs).Some? ==> Linked(LastEntry(d.segs).value, e)
    ensures Chain(d.history + [Parsed(e)])
    ensures (d.history + [Parsed(e)])[d.dropped..] == Complete(d.segs) + [Parsed(e)]
  {
    ChainGrows(d.history, e);
    if Complete(d.segs) != [] {
      LastOfNewest(d.segs);
    }
  }

  lemma DropMore(lines: seq<Line>, dropped: nat, n: nat)
    requires dropped <= |lines| && n <= |lines[dropped..]|
    ensures lines[dropped..][n..] == lines[dropped + n..]
  {
  }

  lemma PruneKeepsOneChain(d: Disk, cutoff: int, monthEnd: int -> int)
    requires OneChain(d) && Increasing(monthEnd) && Anchored(d.segs)
    ensures OneChain(Step(d, PruneOp(cutoff), monthEnd))
  {
    var n := PruneDropsAPrefix(d.segs, monthEnd, cutoff);
    PruneCounts(d, cutoff, monthEnd, n);
    DropMore(d.history, d.dropped, n);
    if d.history != [] {
      LastOfNewest(Prune(d.segs, monthEnd, cutoff));
    }
  }

  lemma PruneCounts(d: Disk, cutoff: int, monthEnd: int -> int, n: nat)
    requires n <= |Complete(d.segs)| && Complete(Prune(d.segs, monthEnd, cutoff)) == Complete(d.segs)[n..]
    ensures Step(d, PruneOp(cutoff), monthEnd) == Disk(Prune(d.segs, monthEnd, cutoff), d.history, d.dropped + n)
  {
  }

  lemma StepKeepsOneChain(d: Disk, op: Op, monthEnd: int -> int)
    requires OneChain(d) && Increasing(monthEnd) && Anchored(d.segs)
    ensures OneChain(Step(d, op, monthEnd))
  {
    match op
    case AppendOp(_, _, _) => AppendKeepsOneChain(d, op, monthEnd);
    case PruneOp(cutoff) => PruneKeepsOneChain(d, cutoff, monthEnd);
  }

  /**
   * For every run of appends with any clock readings, of writes cut short anywhere, and of prunes: the retained
   * segments, read in name order, are one chain in the order of the writes, with no entry moved or lost except those
   * that pruning dropped from the front; and after an acknowledged append verify() passes.
   */
  lemma {:induction false} EveryRunIsOneChain(ops: seq<Op>, monthEnd: int -> int)
    requires Increasing(monthEnd) && AlwaysAnchored(ops, monthEnd)
    ensures var d := Run(ops, monthEnd);
            && Chain(d.history) && InOrder(d.segs)
            && d.dropped <= |d.history| && Complete(d.segs) == d.history[d.dropped..]
            && (d.history != [] ==> d.dropped < |d.history|)
            && (ops != [] && Lands(ops[|ops| - 1]) ==> Chain(Raw(d.segs)))
  {
    if ops != [] {
      var before, last := ops[..|ops| - 1], ops[|ops| - 1];
      EveryRunIsOneChain(before, monthEnd);
      var d := Run(before, monthEnd);
      assert OneChain(d);
      StepKeepsOneChain(d, last, monthEnd);
      if Lands(last) {
        LandedVerifies(d, last, monthEnd);
      }
    }
  }

  lemma LandedVerifies(d: Disk, op: Op, monthEnd: int -> int)
    requires OneChain(d) && Anchored(d.segs) && Lands(op)
    ensures Chain(Raw(Step(d, op, monthEnd).segs))
  {
    ChainSuffix(d.history, d.dropped);
    AppendVerifiesExactlyWhenAnchored(d.segs, op.r, op.clock);
  }

  // ---- What the entries say ----

  /** The entry says who asked for it, what was asked and when, and carries the hash of what it says. */
  predicate Says(e: Entry, r: Request, at: int) {
    && e.body.nodeId == r.nodeId && e.body.writer == r.writer && e.body.kind == r.kind && e.body.data == r.data
    && e.body.at == at
    && Sound(e)
  }

  /** The appends of a run whose line was written whole, in their order. */
  function Landed(ops: seq<Op>): seq<Op> {
    if ops == [] then []
    else Landed(ops[..|ops| - 1]) + if Lands(ops[|ops| - 1]) then [ops[|ops| - 1]] else []
  }

  lemma {:induction false} LandedLand(ops: seq<Op>)
    ensures forall op | op in Landed(ops) :: op.AppendOp?
  {
    if ops != [] {
      LandedLand(ops[..|ops| - 1]);
    }
  }

  predicate AllParse(segs: seq<Segment>) {
    forall i, k {:trigger segs[i].lines[k]} | 0 <= i < |segs| && 0 <= k < |segs[i].lines| :: segs[i].lines[k].Parsed?
  }

  lemma AllParseIsReadable(segs: seq<Segment>)
    requires AllParse(segs)
    ensures Readable(segs)
  {
    if segs != [] {
      var lines := segs[|segs| - 1].lines;
      forall line | line in lines ensures line.Parsed? {
        var k :| 0 <= k < |lines| && lines[k] == line;
      }
    }
  }

  lemma StepParses(d: Disk, op: Op, monthEnd: int -> int)
    requires AllParse(d.segs) && InOrder(d.segs) && Increasing(monthEnd)
    ensures AllParse(Step(d, op, monthEnd).segs)
  {
    match op
    case AppendOp(r, clock, written) =>
      AllParseIsReadable(d.segs);
      var e := NewEntry(LastEntry(d.segs), r, clock.at);
      if !written.Nothing? {
        PutParses(Healed(d.segs), clock.month, LinesOf(written, e), TailOf(written, e));
      }
    case PruneOp(cutoff) =>
      var n := PruneDropsFiles(d.segs, monthEnd, cutoff);
  }

  lemma PutParses(segs: seq<Segment>, month: int, lines: seq<Line>, tail: Tail)
    requires AllParse(segs) && forall k | 0 <= k < |lines| :: lines[k].Parsed?
    ensures AllParse(Put(segs, month, lines, tail))
  {
  }

  lemma {:induction false} RunParses(ops: seq<Op>, monthEnd: int -> int)
    requires Increasing(monthEnd)
    ensures AllParse(Run(ops, monthEnd).segs)
  {
    if ops != [] {
      RunParses(ops[..|ops| - 1], monthEnd);
      FilesInOrder(ops[..|ops| - 1], monthEnd);
      StepParses(Run(ops[..|ops| - 1], monthEnd), ops[|ops| - 1], monthEnd);
    }
  }

  /** The newest line of the history, if the step writes one, says what the step asked for. */
  lemma StepSays(d: Disk, op: Op, monthEnd: int -> int)
    requires Readable(d.segs)
    ensures var history := Step(d, op, monthEnd).history;
            if Lands(op) then
              && |history| == |d.history| + 1 && history[..|d.history|] == d.history
              && history[|d.history|].Parsed? && Says(history[|d.history|].entry, op.r, op.clock.at)
            else history == d.history
  {
  }

  /**
   * Over every run, anchored or not, line k of the history says who asked, what and when, as the k-th append whose line
   * was written whole did.
   */
  lemma {:induction false} HistorySaysWhatWasAsked(ops: seq<Op>, monthEnd: int -> int, k: nat)
    requires Increasing(monthEnd) && k < |Landed(ops)|
    ensures var history := Run(ops, monthEnd).history;
            && |history| == |Landed(ops)| && history[k].Parsed? && Landed(ops)[k].AppendOp?
            && Says(history[k].entry, Landed(ops)[k].r, Landed(ops)[k].clock.at)
  {
    var before, last := ops[..|ops| - 1], ops[|ops| - 1];
    RunParses(before, monthEnd);
    AllParseIsReadable(Run(before, monthEnd).segs);
    StepSays(Run(before, monthEnd), last, monthEnd);
    HistoryIsAsLong(before, monthEnd);
    if k < |Landed(before)| {
      HistorySaysWhatWasAsked(before, monthEnd, k);
    }
  }

  /** There is one line for each of those appends and no other. */
  lemma {:induction false} HistoryIsAsLong(ops: seq<Op>, monthEnd: int -> int)
    requires Increasing(monthEnd)
    ensures |Run(ops, monthEnd).history| == |Landed(ops)|
  {
    if ops != [] {
      HistoryIsAsLong(ops[..|ops| - 1], monthEnd);
      RunParses(ops[..|ops| - 1], monthEnd);
      AllParseIsReadable(Run(ops[..|ops| - 1], monthEnd).segs);
      StepSays(Run(ops[..|ops| - 1], monthEnd), ops[|ops| - 1], monthEnd);
    }
  }

  /** A ledger begins with entry 1, which has none before it. */
  predicate BeginsAtOne(lines: seq<Line>) {
    lines != [] ==> lines[0].Parsed? && lines[0].entry.body.seqNo == 1 && lines[0].entry.body.prev.None?
  }

  lemma StepBeginsAtOne(d: Disk, op: Op, monthEnd: int -> int)
    requires OneChain(d) && BeginsAtOne(d.history)
    ensures BeginsAtOne(Step(d, op, monthEnd).history)
  {
    if d.history == [] && d.segs != [] {
      assert Complete(d.segs) == [];
    }
  }

  lemma {:induction false} RunBeginsAtOne(ops: seq<Op>, monthEnd: int -> int)
    requires Increasing(monthEnd) && AlwaysAnchored(ops, monthEnd)
    ensures BeginsAtOne(Run(ops, monthEnd).history)
  {
    if ops != [] {
      var before := ops[..|ops| - 1];
      RunBeginsAtOne(before, monthEnd);
      EveryRunIsOneChain(before, monthEnd);
      StepBeginsAtOne(Run(before, monthEnd), ops[|ops| - 1], monthEnd);
    }
  }

  /** Over every anchored run the k-th entry ever written has number k, and each names the one before it. */
  lemma EntriesAreNumbered(ops: seq<Op>, monthEnd: int -> int, k: nat)
    requires Increasing(monthEnd) && AlwaysAnchored(ops, monthEnd) && k < |Run(ops, monthEnd).history|
    ensures var history := Run(ops, monthEnd).history;
            && history[k].Parsed? && history[k].entry.body.seqNo == k + 1
            && (k > 0 ==> history[k - 1].Parsed? && history[k].entry.body.prev == Some(history[k - 1].entry.hash))
            && (k == 0 ==> history[k].entry.body.prev == None)
  {
    var history := Run(ops, monthEnd).history;
    EveryRunIsOneChain(ops, monthEnd);
    RunBeginsAtOne(ops, monthEnd);
    assert history[k] in history && (k > 0 ==> history[k - 1] in history);
    SeqsAreConsecutive(Entries(history), 0, k);
    assert k > 0 ==> LinkedAt(Entries(history), k);
  }

  // ---- Where entries stay ----

  lemma PutKeepsFiles(segs: seq<Segment>, month: int, lines: seq<Line>, tail: Tail)
    ensures var t := Put(segs, month, lines, tail);
            && |segs| <= |t| <= |segs| + 1
            && (forall i {:trigger t[i]} | 0 <= i < |segs| ::
                  t[i].month == segs[i].month && segs[i].lines <= t[i].lines)
            && (|segs| < |t| && segs != [] ==> segs[|segs| - 1].month < t[|segs|].month)
  {
  }

  /**
   * However far a write gets, every file stays where it was with its lines at its beginning; a new one sorts behind
   * them.
   */
  lemma AppendKeepsFiles(segs: seq<Segment>, r: Request, clock: Clock, written: Written)
    ensures var t := Append(segs, r, clock, written);
            && |segs| <= |t| <= |segs| + 1
            && (forall i {:trigger t[i]} | 0 <= i < |segs| ::
                  t[i].month == segs[i].month && segs[i].lines <= t[i].lines)
            && (|segs| < |t| && segs != [] ==> segs[|segs| - 1].month < t[|segs|].month)
  {
    if Readable(segs) && !written.Nothing? {
      var e := NewEntry(LastEntry(segs), r, clock.at);
      PutKeepsFiles(Healed(segs), clock.month, LinesOf(written, e), TailOf(written, e));
    }
  }

  /** The file of a month is there, and begins with these lines. */
  ghost predicate Holds(segs: seq<Segment>, month: int, lines: seq<Line>) {
    exists i :: 0 <= i < |segs| && segs[i].month == month && lines <= segs[i].lines
  }

  /** The month has been pruned away: it has no file and never gets one again. */
  predicate Over(segs: seq<Segment>, month: int) {
    segs != [] && month < segs[|segs| - 1].month && forall seg | seg in segs :: seg.month != month
  }

  /** The prune that drops the file of a month: its cutoff lies after the month's end, and a newer file is there. */
  predicate DropsMonth(segs: seq<Segment>, op: Op, monthEnd: int -> int, month: int) {
    op.PruneOp? && monthEnd(month) < op.cutoff && segs != [] && month < segs[|segs| - 1].month
  }

  /** Such a prune has come since step k. */
  predicate DroppedSince(ops: seq<Op>, k: nat, monthEnd: int -> int, month: int) {
    k < |ops|
    && (DroppedSince(ops[..|ops| - 1], k, monthEnd, month)
        || DropsMonth(Run(ops[..|ops| - 1], monthEnd).segs, ops[|ops| - 1], monthEnd, month))
  }

  lemma AppendHolds(segs: seq<Segment>, r: Request, clock: Clock, written: Written, month: int, lines: seq<Line>)
    ensures Holds(segs, month, lines) ==> Holds(Append(segs, r, clock, written), month, lines)
    ensures Over(segs, month) ==> Over(Append(segs, r, clock, written), month)
  {
    var t := Append(segs, r, clock, written);
    AppendKeepsFiles(segs, r, clock, written);
    if i :| 0 <= i < |segs| && segs[i].month == month && lines <= segs[i].lines {
      assert t[i].month == month;
    }
  }

  lemma PruneHolds(segs: seq<Segment>, monthEnd: int -> int, cutoff: int, month: int, lines: seq<Line>)
    requires InOrder(segs) && Increasing(monthEnd) && Holds(segs, month, lines)
    ensures var t := Prune(segs, monthEnd, cutoff);
            if DropsMonth(segs, PruneOp(cutoff), monthEnd, month) then Over(t, month) else Holds(t, month, lines)
  {
    var t := Prune(segs, monthEnd, cutoff);
    var d := PruneDropsFiles(segs, monthEnd, cutoff);
    var i :| 0 <= i < |segs| && segs[i].month == month && lines <= segs[i].lines;
    if d <= i {
      assert t[i - d] == segs[i];
    }
  }

  lemma PruneOver(segs: seq<Segment>, monthEnd: int -> int, cutoff: int, month: int)
    requires InOrder(segs) && Increasing(monthEnd) && Over(segs, month)
    ensures Over(Prune(segs, monthEnd, cutoff), month)
  {
    var d := PruneDropsFiles(segs, monthEnd, cutoff);
  }

  lemma {:induction false} FilesInOrder(ops: seq<Op>, monthEnd: int -> int)
    requires Increasing(monthEnd)
    ensures InOrder(Run(ops, monthEnd).segs)
  {
    if ops != [] {
      var before, last := ops[..|ops| - 1], ops[|ops| - 1];
      var segs := Run(before, monthEnd).segs;
      FilesInOrder(before, monthEnd);
      match last
      case AppendOp(r, clock, written) => AppendInOrder(segs, r, clock, written);
      case PruneOp(cutoff) =>
        var d := PruneDropsFiles(segs, monthEnd, cutoff);
        SuffixInOrder(segs, d);
    }
  }

  lemma AppendInOrder(segs: seq<Segment>, r: Request, clock: Clock, written: Written)
    requires InOrder(segs)
    ensures InOrder(Append(segs, r, clock, written))
  {
    if Readable(segs) {
      AppendAdds(segs, r, clock, written);
    } else {
      HealedKeeps(segs);
    }
  }

  /**
   * Over every run an entry stays where it was written, in the file of its month behind the lines that were there:
   * until, and only until, a prune finds its month past the cutoff with a newer file there.
   */
  lemma {:induction false} EntriesStayInPlace(ops: seq<Op>, k: nat, monthEnd: int -> int, month: int, lines: seq<Line>)
    requires Increasing(monthEnd) && k <= |ops| && Holds(Run(ops[..k], monthEnd).segs, month, lines)
    ensures Holds(Run(ops, monthEnd).segs, month, lines) <==> !DroppedSince(ops, k, monthEnd, month)
    ensures DroppedSince(ops, k, monthEnd, month) ==> Over(Run(ops, monthEnd).segs, month)
  {
    if k == |ops| {
      assert ops[..k] == ops;
    } else {
      var before, last := ops[..|ops| - 1], ops[|ops| - 1];
      var segs := Run(before, monthEnd).segs;
      assert before[..k] == ops[..k];
      EntriesStayInPlace(before, k, monthEnd, month, lines);
      FilesInOrder(before, monthEnd);
      match last
      case AppendOp(r, clock, written) => AppendHolds(segs, r, clock, written, month, lines);
      case PruneOp(cutoff) =>
        if DroppedSince(before, k, monthEnd, month) {
          PruneOver(segs, monthEnd, cutoff, month);
        } else {
          PruneHolds(segs, monthEnd, cutoff, month, lines);
        }
    }
  }

  /**
   * A write that does not start a new segment while entries are retained, or that starts it whole, leaves an anchor.
   */
  predicate LeavesAnchor(segs: seq<Segment>, op: Op) {
    || !op.AppendOp? || Lands(op) || op.written == Nothing
    || segs == [] || Complete(segs) == [] || op.clock.month <= segs[|segs| - 1].month
  }

  lemma AppendLeavesAnchor(segs: seq<Segment>, r: Request, clock: Clock, written: Written)
    requires InOrder(segs) && Readable(segs) && Anchored(segs) && LeavesAnchor(segs, AppendOp(r, clock, written))
    ensures Anchored(Append(segs, r, clock, written))
  {
    AppendAdds(segs, r, clock, written);
  }

  lemma PruneLeavesAnchor(segs: seq<Segment>, monthEnd: int -> int, cutoff: int)
    requires InOrder(segs) && Increasing(monthEnd) && Anchored(segs)
    ensures Anchored(Prune(segs, monthEnd, cutoff))
  {
    var n := PruneDropsAPrefix(segs, monthEnd, cutoff);
  }

  lemma OneChainIsReadable(d: Disk)
    requires OneChain(d)
    ensures Readable(d.segs)
  {
    ChainSuffix(d.history, d.dropped);
    ChainIsReadable(d.segs);
  }

  lemma AnchorStays(d: Disk, op: Op, monthEnd: int -> int)
    requires OneChain(d) && Increasing(monthEnd) && Anchored(d.segs) && LeavesAnchor(d.segs, op)
    ensures Anchored(Step(d, op, monthEnd).segs)
  {
    OneChainIsReadable(d);
    match op
    case AppendOp(r, clock, written) => AppendLeavesAnchor(d.segs, r, clock, written);
    case PruneOp(cutoff) => PruneLeavesAnchor(d.segs, monthEnd, cutoff);
  }

  predicate AlwaysLeavesAnchor(ops: seq<Op>, monthEnd: int -> int) {
    ops == [] ||
    (AlwaysLeavesAnchor(ops[..|ops| - 1], monthEnd)
        && LeavesAnchor(Run(ops[..|ops| - 1], monthEnd).segs, ops[|ops| - 1]))
  }

  /** So only a crash inside the first line of a new month can break the chain. */
  lemma {:induction false} OnlyATornFirstLineUnanchors(ops: seq<Op>, monthEnd: int -> int)
    requires Increasing(monthEnd) && AlwaysLeavesAnchor(ops, monthEnd)
    ensures AlwaysAnchored(ops, monthEnd) && Anchored(Run(ops, monthEnd).segs)
  {
    if ops != [] {
      var before, last := ops[..|ops| - 1], ops[|ops| - 1];
      OnlyATornFirstLineUnanchors(before, monthEnd);
      EveryRunIsOneChain(before, monthEnd);
      AnchorStays(Run(before, monthEnd), last, monthEnd);
    }
  }

  /**
   * The case that shows it: the first line of the second month is torn away, and the next acknowledged append does
   * not verify.
   */
  lemma TornFirstLineBreaksTheChain(r: Request)
    ensures var first := Append([], r, Clock(10, 1), Acked);
            var torn := Append(first, r, Clock(20, 2), SomeBytes);
            Chain(Complete(torn)) && !Chain(Raw(Append(torn, r, Clock(30, 2), Acked)))
  {
    var e := NewEntry(None, r, 10);
    var first := Append([], r, Clock(10, 1), Acked);
    var torn := Append(first, r, Clock(20, 2), SomeBytes);
    assert first == [Segment(1, [Parsed(e)], NoTail)];
    assert torn == [Segment(1, [Parsed(e)], NoTail), Segment(2, [], Fragment)];
    TwoSegments(torn, e);
    AppendVerifiesExactlyWhenAnchored(torn, r, Clock(30, 2));
  }

  lemma TwoSegments(torn: seq<Segment>, e: Entry)
    requires torn == [Segment(1, [Parsed(e)], NoTail), Segment(2, [], Fragment)] && Sound(e)
    ensures InOrder(torn) && Chain(Complete(torn)) && !Anchored(torn)
  {
    assert torn[..1] == [Segment(1, [Parsed(e)], NoTail)];
    assert torn[..1][..0] == [];
    var none: seq<Line> := [];
    assert Complete(torn[..1]) == none + [Parsed(e)];
    assert Complete(torn) == [Parsed(e)];
    ChainGrows([], e);
    assert [] + [Parsed(e)] == [Parsed(e)];
  }
}
