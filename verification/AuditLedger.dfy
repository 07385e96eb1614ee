/**
 * The ledger object of src/audit/audit-ledger.js over a directory of segments. Appends are serialized by the ledger's
 * lock, so one call is one step.
 */
module AuditLedgers {
  import opened Basics
  import opened AuditChain
  import opened AuditDisk

  datatype Fault = Unparseable | SeqGap | PrevMismatch | HashMismatch

  datatype Report = Report(ok: bool, entries: nat, brokenAt: int, fault: Option<Fault>)

  datatype SliceFault = BadSignature | Malformed | ForeignEntry | SliceHashMismatch | BrokenChain | ExceedsHead
    | HeadMismatch | BeforeAnchor

  /** The first check of verify() that a line fails, given the entry before it. */
  function FaultOf(previous: Option<Entry>, line: Line): Option<Fault> {
    if line.Garbled? then Some(Unparseable)
    else
      var e := line.entry;
      if previous.Some? && e.body.seqNo != previous.value.body.seqNo + 1 then Some(SeqGap)
      else if previous.Some? && e.body.prev != Some(previous.value.hash) then Some(PrevMismatch)
      else if !Sound(e) then Some(HashMismatch)
      else None
  }

  /** Each fault is what it is called: no entry, a wrong number, a wrong link, or a hash that is not the entry's own. */
  lemma FaultSays(previous: Option<Entry>, line: Line)
    ensures var fault := FaultOf(previous, line);
            && (fault == Some(Unparseable) <==> line == Garbled)
            && (line.Parsed? ==>
                  var e := line.entry;
                  var follows := previous.Some? ==> e.body.seqNo == previous.value.body.seqNo + 1;
                  var links := previous.Some? ==> e.body.prev == Some(previous.value.hash);
                  && (fault == Some(SeqGap) <==> !follows)
                  && (fault == Some(PrevMismatch) <==> follows && !links)
                  && (fault == Some(HashMismatch) <==> follows && links && e.hash != Of(e.body))
                  && (fault == None <==> follows && links && e.hash == Of(e.body)))
  {
  }

  /** The entry before a line, where all lines before it parse. */
  function Previous(lines: seq<Line>, i: nat): Option<Entry>
    requires i <= |lines|
  {
    if i == 0 || lines[i - 1].Garbled? then None else Some(lines[i - 1].entry)
  }

  lemma ChainPrefix(lines: seq<Line>, n: nat)
    requires Chain(lines) && n <= |lines|
    ensures Chain(lines[..n])
  {
    assert forall line | line in lines[..n] :: line in lines;
    ChainParts(Entries(lines), 0, n);
    assert Entries(lines[..n]) == Entries(lines)[0..n];
  }

  /** A chain's prefix goes on with the next line exactly when verify() finds no fault in it. */
  lemma FaultBreaksTheChain(lines: seq<Line>, i: nat)
    requires i < |lines| && Chain(lines[..i])
    ensures Chain(lines[..i + 1]) <==> FaultOf(Previous(lines, i), lines[i]).None?
  {
    assert lines[..i + 1] == lines[..i] + [lines[i]];
    if i > 0 {
      PreviousParses(lines, i);
    }
    if lines[i].Garbled? {
      assert lines[i] in lines[..i + 1];
    } else if Sound(lines[i].entry) {
      ChainGrows(lines[..i], lines[i].entry);
    } else {
      UnsoundBreaksTheChain(lines[..i + 1], i);
    }
  }

  lemma UnsoundBreaksTheChain(lines: seq<Line>, k: nat)
    requires k < |lines| && lines[k].Parsed? && !Sound(lines[k].entry)
    ensures !Chain(lines)
  {
    if forall line | line in lines :: line.Parsed? {
      assert Entries(lines)[k] == lines[k].entry;
    }
  }

  /** The sequence number of a line; where it does not parse, the one it should have had. */
  function SeqAt(lines: seq<Line>, i: nat): int
    requires i < |lines|
  {
    match lines[i]
    case Parsed(e) => e.body.seqNo
    case Garbled => if Previous(lines, i).Some? then Previous(lines, i).value.body.seqNo + 1 else 1
  }

  lemma PreviousParses(lines: seq<Line>, i: nat)
    requires 0 < i <= |lines| && Chain(lines[..i])
    ensures lines[i - 1].Parsed?
  {
    assert lines[i - 1] == lines[..i][i - 1] && lines[i - 1] in lines[..i];
  }

  /** What verify() finds first: the lines up to it are a chain, and with it they are none. */
  lemma FirstFault(lines: seq<Line>, i: nat)
    requires i < |lines| && Chain(lines[..i]) && FaultOf(Previous(lines, i), lines[i]).Some?
    ensures !Chain(lines[..i + 1]) && !Chain(lines)
  {
    FaultBreaksTheChain(lines, i);
    if Chain(lines) {
      ChainPrefix(lines, i + 1);
    }
  }

  lemma KeptNext(older: seq<Segment>, i: nat, monthEnd: int -> int, cutoff: int, kept: seq<Segment>)
    requires i < |older|
    ensures var more := if monthEnd(older[i].month) < cutoff then kept else kept + [older[i]];
            kept + Kept(older[i..], monthEnd, cutoff) == more + Kept(older[i + 1..], monthEnd, cutoff)
  {
    assert older[i..][1..] == older[i + 1..];
    var rest := Kept(older[i + 1..], monthEnd, cutoff);
    assert kept + [] == kept && kept + ([older[i]] + rest) == kept + [older[i]] + rest;
    assert [] + rest == rest;
  }

  /** After an acknowledged append the new entry is the last complete line, and nothing follows it. */
  lemma AppendShows(segs: seq<Segment>, r: Request, clock: Clock, written: Written)
    requires Readable(segs)
    ensures InOrder(segs) && written.Acked? ==>
              var t, e := Append(segs, r, clock, written), NewEntry(LastEntry(segs), r, clock.at);
              && InOrder(t) && Complete(t) == Complete(segs) + [Parsed(e)]
              && t != [] && t[|t| - 1].tail == NoTail
  {
    if InOrder(segs) {
      AppendAdds(segs, r, clock, written);
    }
  }

  class AuditLedger {
    const nodeId: int
    const writer: Writer
    const monthEnd: int -> int
    var segments: seq<Segment>

    constructor (nodeId: int, writer: Writer, monthEnd: int -> int)
      ensures segments == [] && this.nodeId == nodeId && this.writer == writer && this.monthEnd == monthEnd
    {
      this.nodeId, this.writer, this.monthEnd, segments := nodeId, writer, monthEnd, [];
    }

    /** Moves an unterminated tail of the newest segment aside. */
    method HealTornTail()
      modifies this`segments
      ensures segments == Healed(old(segments))
    {
      if segments != [] {
        var n := |segments| - 1;
        segments := segments[n := Segment(segments[n].month, segments[n].lines, NoTail)];
      }
    }

    method LastValidEntry() returns (readable: bool, last: Option<Entry>)
      ensures readable == Readable(segments)
      ensures readable ==> last == LastEntry(segments)
    {
      last := None;
      if segments == [] {
        return true, None;
      }
      var lines := segments[|segments| - 1].lines;
      var i := 0;
      while i < |lines|
        invariant 0 <= i <= |lines|
        invariant forall line | line in lines[..i] :: line.Parsed?
        invariant last == if i == 0 then None else Some(lines[i - 1].entry)
      {
        if lines[i].Garbled? {
          assert lines[i] in lines && !lines[i].Parsed?;
          assert !(forall line | line in lines :: line.Parsed?);
          return false, None;
        }
        last := Some(lines[i].entry);
        i := i + 1;
      }
      assert lines[..i] == lines;
      readable := true;
    }

    /**
     * `written` is how far the write gets: a short write or a crash leaves less than a line, and the caller sees no
     * entry.
     */
    method AppendEntry(kind: int, data: int, clock: Clock, written: Written) returns (entry: Option<Entry>)
      modifies this`segments
      ensures segments == Append(old(segments), Request(nodeId, writer, kind, data), clock, written)
      ensures entry == if Readable(old(segments)) && written.Acked?
                       then Some(NewEntry(LastEntry(old(segments)), Request(nodeId, writer, kind, data), clock.at))
                           else None
      ensures entry.Some? <==> Readable(old(segments)) && written.Acked?
      ensures entry.Some? ==> Says(entry.value, Request(nodeId, writer, kind, data), clock.at)
      ensures entry.Some? && InOrder(old(segments)) ==>
                && InOrder(segments) && Complete(segments) == Complete(old(segments)) + [Parsed(entry.value)]
                && segments[|segments| - 1].tail == NoTail
    {
      HealTornTail();
      var readable, last := LastValidEntry();
      if !readable || written.Nothing? {
        return None;
      }
      var e := NewEntry(last, Request(nodeId, writer, kind, data), clock.at);
      var n := |segments| - 1;
      if segments != [] && segments[n].month >= clock.month {
        segments :=
          segments[n := Segment(segments[n].month, segments[n].lines + LinesOf(written, e), TailOf(written, e))];
      } else {
        segments := segments + [Segment(clock.month, LinesOf(written, e), TailOf(written, e))];
      }
      entry := if written.Acked? then Some(e) else None;
      AppendShows(old(segments), Request(nodeId, writer, kind, data), clock, written);
    }

    /**
     * verify() passes exactly on one chain; otherwise it counts the longest good prefix and names the first fault
     * after it.
     */
    method Verify() returns (r: Report)
      ensures r.ok <==> Chain(Raw(segments))
      ensures r.ok ==> r.entries == |Raw(segments)|
      ensures !r.ok ==>
            r.entries < |Raw(segments)| && Chain(Raw(segments)[..r.entries]) && !Chain(Raw(segments)[..r.entries + 1])
      ensures !r.ok ==> r.fault == FaultOf(Previous(Raw(segments), r.entries), Raw(segments)[r.entries])
      ensures !r.ok ==> r.brokenAt == SeqAt(Raw(segments), r.entries)
    {
      var lines := AllRawLines();
      var previous := None;
      var i := 0;
      while i < |lines|
        invariant 0 <= i <= |lines| && Chain(lines[..i])
        invariant previous == Previous(lines, i)
      {
        var fault := FaultOf(previous, lines[i]);
        if fault.Some? {
          FirstFault(lines, i);
          var at := if lines[i].Parsed? then lines[i].entry.body.seqNo
                    else if previous.Some? then previous.value.body.seqNo + 1 else 1;
          return Report(false, i, at, fault);
        }
        FaultBreaksTheChain(lines, i);
        previous := Some(lines[i].entry);
        i := i + 1;
      }
      assert lines[..i] == lines;
      r := Report(true, i, 0, None);
    }

    method AllRawLines() returns (lines: seq<Line>)
      ensures lines == Raw(segments)
    {
      lines := [];
      var i := 0;
      while i < |segments|
        invariant 0 <= i <= |segments| && lines == Raw(segments[..i])
      {
        assert segments[..i + 1][..i] == segments[..i];
        lines := lines + segments[i].lines + TailLines(segments[i].tail);
        i := i + 1;
      }
      assert segments[..i] == segments;
    }

    method AllEntries() returns (lines: seq<Line>)
      ensures lines == Complete(segments)
    {
      lines := [];
      var i := 0;
      while i < |segments|
        invariant 0 <= i <= |segments| && lines == Complete(segments[..i])
      {
        assert segments[..i + 1][..i] == segments[..i];
        lines := lines + segments[i].lines;
        i := i + 1;
      }
      assert segments[..i] == segments;
    }

    method PruneSegments(cutoff: int) returns (removed: nat)
      modifies this`segments
      ensures segments == Prune(old(segments), monthEnd, cutoff)
      ensures removed == |old(segments)| - |segments|
    {
      removed := 0;
      if segments == [] {
        return;
      }
      var n := |segments| - 1;
      var older := segments[..n];
      var kept := [];
      var i := 0;
      while i < n
        invariant 0 <= i <= n && removed + |kept| == i && segments == old(segments)
        invariant Kept(older, monthEnd, cutoff) == kept + Kept(older[i..], monthEnd, cutoff)
      {
        KeptNext(older, i, monthEnd, cutoff, kept);
        if monthEnd(older[i].month) < cutoff {
          removed := removed + 1;
        } else {
          kept := kept + [older[i]];
        }
        i := i + 1;
      }
      assert kept == Kept(older, monthEnd, cutoff);
      segments := kept + [segments[n]];
    }
  }

  // ---- slice() ----

  /** The longest page that begins where the candidates do. */
  ghost predicate LongestFirst(picked: seq<Entry>, candidates: seq<Entry>, cap: nat, maxBytes: int, size: Entry -> nat)
  {
    && picked <= candidates && Fits(picked, cap, maxBytes, size)
    && (forall m {:trigger candidates[..m]} | |picked| < m <= |candidates| ::
          !Fits(candidates[..m], cap, maxBytes, size))
  }

  /** The longest page that ends where the candidates do. */
  ghost predicate LongestLast(picked: seq<Entry>, candidates: seq<Entry>, cap: nat, maxBytes: int, size: Entry -> nat) {
    && |picked| <= |candidates| && picked == candidates[|candidates| - |picked|..] && Fits(picked, cap, maxBytes, size)
    && (forall m {:trigger Last(candidates, m)} | |picked| < m <= |candidates| ::
          !Fits(Last(candidates, m), cap, maxBytes, size))
  }

  function Last(es: seq<Entry>, m: nat): seq<Entry>
    requires m <= |es|
  {
    es[|es| - m..]
  }

  lemma {:induction false} BytesFirst(es: seq<Entry>, size: Entry -> nat)
    requires es != []
    ensures Bytes(es, size) == size(es[0]) + Bytes(es[1..], size)
    decreases |es|
  {
    if |es| > 1 {
      BytesFirst(es[..|es| - 1], size);
      assert es[1..][..|es| - 2] == es[..|es| - 1][1..];
    }
  }

  lemma {:induction false} BytesReversed(es: seq<Entry>, size: Entry -> nat)
    ensures Bytes(Reversed(es), size) == Bytes(es, size)
    decreases |es|
  {
    if es != [] {
      BytesReversed(es[1..], size);
      BytesFirst(es, size);
      assert Reversed(es)[..|es| - 1] == Reversed(es[1..]);
    }
  }

  lemma LastReversed(es: seq<Entry>, m: nat, cap: nat, maxBytes: int, size: Entry -> nat)
    requires m <= |es|
    ensures Fits(Last(es, m), cap, maxBytes, size) <==> Fits(Reversed(es)[..m], cap, maxBytes, size)
  {
    assert Reversed(Last(es, m)) == Reversed(es)[..m];
    BytesReversed(Last(es, m), size);
  }

  /** slice() after a hash, walked from the oldest candidate on. */
  method SliceForward(candidates: seq<Entry>, cap: nat, maxBytes: int, size: Entry -> nat) returns (picked: seq<Entry>)
    ensures picked == candidates[..Grow(candidates, 0, cap, maxBytes, size)]
    ensures LongestFirst(picked, candidates, cap, maxBytes, size)
    ensures candidates != [] && cap > 0 ==> picked != []
  {
    picked := [];
    var bytes := 0;
    var i := 0;
    while i < |candidates|
      invariant 0 <= i <= |candidates| && picked == candidates[..i] && bytes == Bytes(picked, size)
      invariant Grow(candidates, 0, cap, maxBytes, size) == Grow(candidates, i, cap, maxBytes, size)
    {
      GrowByOne(candidates, i, cap, maxBytes, size);
      if |picked| >= cap || (|picked| > 0 && bytes + size(candidates[i]) > maxBytes) {
        break;
      }
      picked := picked + [candidates[i]];
      bytes := bytes + size(candidates[i]);
      i := i + 1;
    }
    GrowIsGreedy(candidates, 0, cap, maxBytes, size);
  }

  /** slice() before a sequence number, walked from the newest candidate back. */
  method SliceBackward(candidates: seq<Entry>, cap: nat, maxBytes: int, size: Entry -> nat) returns (picked: seq<Entry>)
    ensures LongestLast(picked, candidates, cap, maxBytes, size)
    ensures candidates != [] && cap > 0 ==> picked != []
  {
    ghost var newest := Reversed(candidates);
    picked := [];
    var bytes := 0;
    var i := |candidates|;
    while i > 0
      invariant 0 <= i <= |candidates| && picked == candidates[i..]
      invariant bytes == Bytes(newest[..|candidates| - i], size)
      invariant Grow(newest, 0, cap, maxBytes, size) == Grow(newest, |candidates| - i, cap, maxBytes, size)
    {
      GrowByOne(newest, |candidates| - i, cap, maxBytes, size);
      if |picked| >= cap || (|picked| > 0 && bytes + size(candidates[i - 1]) > maxBytes) {
        break;
      }
      picked := [candidates[i - 1]] + picked;
      bytes := bytes + size(candidates[i - 1]);
      i := i - 1;
    }
    BackwardPage(candidates, i, cap, maxBytes, size);
  }

  lemma BackwardPage(candidates: seq<Entry>, i: nat, cap: nat, maxBytes: int, size: Entry -> nat)
    requires i <= |candidates| && Grow(Reversed(candidates), 0, cap, maxBytes, size) == |candidates| - i
    ensures LongestLast(candidates[i..], candidates, cap, maxBytes, size)
    ensures candidates != [] && cap > 0 ==> i < |candidates|
  {
    GrowIsGreedy(Reversed(candidates), 0, cap, maxBytes, size);
    assert candidates != [] ==> Reversed(candidates) != [];
    assert Last(candidates, |candidates| - i) == candidates[i..];
    LastReversed(candidates, |candidates| - i, cap, maxBytes, size);
    forall m | |candidates| - i < m <= |candidates| ensures !Fits(Last(candidates, m), cap, maxBytes, size) {
      LastReversed(candidates, m, cap, maxBytes, size);
    }
  }

  lemma {:induction false} NoneBefore(es: seq<Entry>, n: int)
    requires forall e | e in es :: e.body.seqNo >= n
    ensures Before(es, Some(n)) == []
    decreases |es|
  {
    if es != [] {
      assert es[0] in es && (forall e | e in es[1..] :: e in es);
      NoneBefore(es[1..], n);
    }
  }

  /** In a chain, the entries before a sequence number are the first ones. */
  lemma {:induction false} BeforeIsAPrefix(es: seq<Entry>, n: int) returns (k: nat)
    requires EntryChain(es)
    ensures k <= |es| && Before(es, Some(n)) == es[..k]
    decreases |es|
  {
    if es == [] || es[0].body.seqNo >= n {
      k := 0;
      forall e | e in es ensures e.body.seqNo >= n {
        var j :| 0 <= j < |es| && es[j] == e;
        SeqsAreConsecutive(es, 0, j);
      }
      NoneBefore(es, n);
    } else {
      ChainParts(es, 1, |es|);
      assert es[1..|es|] == es[1..];
      k := BeforeIsAPrefix(es[1..], n);
      assert es[..k + 1] == [es[0]] + es[1..][..k];
      k := k + 1;
    }
  }

  /** The entries after a hash are the last ones. */
  lemma AfterIsASuffix(all: seq<Entry>, after: Option<Digest>) returns (i: nat)
    requires EntryChain(all)
    ensures i <= |all| && EntriesAfter(all, after) == all[i..]
  {
    i := if after.None? then 0 else IndexOf(all, after.value) + 1;
  }

  /** The part of the ledger that a slice is cut from. */
  function Candidates(all: seq<Entry>, forward: bool, after: Option<Digest>, upTo: Option<int>): seq<Entry> {
    if forward then EntriesAfter(all, after) else Before(all, upTo)
  }

  ghost predicate Longest(picked: seq<Entry>, candidates: seq<Entry>, forward: bool, cap: nat, maxBytes: int,
      size: Entry -> nat)
  {
    && (forward ==> LongestFirst(picked, candidates, cap, maxBytes, size))
    && (!forward ==> LongestLast(picked, candidates, cap, maxBytes, size))
  }

  method Pick(candidates: seq<Entry>, forward: bool, cap: nat, maxBytes: int, size: Entry -> nat)
    returns (picked: seq<Entry>)
    ensures Longest(picked, candidates, forward, cap, maxBytes, size) && |picked| <= cap
    ensures forward ==> picked == candidates[..Grow(candidates, 0, cap, maxBytes, size)]
    ensures candidates != [] && cap > 0 ==> picked != []
  {
    if forward {
      picked := SliceForward(candidates, cap, maxBytes, size);
    } else {
      picked := SliceBackward(candidates, cap, maxBytes, size);
    }
  }

  /**
   * slice(): what a mirror gets after a hash, or a phone before a sequence number, signed with the head and the
   * anchor.
   */
  method CutSlice(all: seq<Entry>, nodeId: int, nodeKey: int, forward: bool, after: Option<Digest>, upTo: Option<int>,
                  limit: Option<int>, maxBytes: int, size: Entry -> nat) returns (s: Slice)
    ensures s.head == HeadOf(all) && s.anchor == AnchorOf(all) && |s.entries| <= MAX_SLICE
    ensures Longest(s.entries, Candidates(all, forward, after, upTo), forward, Cap(limit), maxBytes, size)
    ensures forward ==>
          s.entries == EntriesAfter(all, after)[..Grow(EntriesAfter(all, after), 0, Cap(limit), maxBytes, size)]
    ensures Candidates(all, forward, after, upTo) != [] ==> s.entries != []
    ensures EntryChain(all) && (forall e | e in all :: e.body.nodeId == nodeId) ==> Acceptable(s, nodeKey)
  {
    var picked := Pick(Candidates(all, forward, after, upTo), forward, Cap(limit), maxBytes, size);
    s := Slice(nodeId, nodeId, picked, HeadOf(all), AnchorOf(all), nodeKey);
    CutIsAccepted(all, picked, forward, after, upTo, nodeId, nodeKey);
  }

  lemma ForwardPart(all: seq<Entry>, i: nat, picked: seq<Entry>)
    requires i <= |all| && picked <= all[i..]
    ensures i + |picked| <= |all| && picked == all[i..i + |picked|]
  {
  }

  lemma BackwardPart(all: seq<Entry>, k: nat, picked: seq<Entry>)
    requires k <= |all| && |picked| <= k && picked == all[..k][k - |picked|..]
    ensures picked == all[k - |picked|..k]
  {
  }

  /** The first of the entries after a hash. */
  lemma ForwardCutIsAccepted(all: seq<Entry>, picked: seq<Entry>, after: Option<Digest>, nodeId: int, nodeKey: int)
    requires EntryChain(all) && (forall e | e in all :: e.body.nodeId == nodeId)
    requires picked <= EntriesAfter(all, after)
    ensures Acceptable(Slice(nodeId, nodeId, picked, HeadOf(all), AnchorOf(all), nodeKey), nodeKey)
  {
    var i := AfterIsASuffix(all, after);
    ForwardPart(all, i, picked);
    EverySliceIsAccepted(all, i, i + |picked|, nodeId, nodeKey);
  }

  /** The last of the entries before a sequence number. */
  lemma BackwardCutIsAccepted(all: seq<Entry>, picked: seq<Entry>, upTo: Option<int>, nodeId: int, nodeKey: int)
    requires EntryChain(all) && (forall e | e in all :: e.body.nodeId == nodeId)
    requires |picked| <= |Before(all, upTo)| && picked == Before(all, upTo)[|Before(all, upTo)| - |picked|..]
    ensures Acceptable(Slice(nodeId, nodeId, picked, HeadOf(all), AnchorOf(all), nodeKey), nodeKey)
  {
    var end := |all|;
    if upTo.Some? {
      end := BeforeIsAPrefix(all, upTo.value);
    }
    assert Before(all, upTo) == all[..end];
    BackwardPart(all, end, picked);
    EverySliceIsAccepted(all, end - |picked|, end, nodeId, nodeKey);
  }

  /** A page at either end of what was asked for, cut from a node's own chain, is accepted. */
  lemma CutIsAccepted(all: seq<Entry>, picked: seq<Entry>, forward: bool, after: Option<Digest>, upTo: Option<int>,
      nodeId: int, nodeKey: int)
    requires forward ==> picked <= EntriesAfter(all, after)
    requires !forward ==> var c := Before(all, upTo); |picked| <= |c| && picked == c[|c| - |picked|..]
    ensures EntryChain(all) && (forall e | e in all :: e.body.nodeId == nodeId) ==>
              Acceptable(Slice(nodeId, nodeId, picked, HeadOf(all), AnchorOf(all), nodeKey), nodeKey)
  {
    if EntryChain(all) && (forall e | e in all :: e.body.nodeId == nodeId) {
      if forward {
        ForwardCutIsAccepted(all, picked, after, nodeId, nodeKey);
      } else {
        BackwardCutIsAccepted(all, picked, upTo, nodeId, nodeKey);
      }
    }
  }

  // ---- verifyAuditSlice ----

  function EntryFault(s: Slice, i: nat): Option<SliceFault>
    requires i < |s.entries|
  {
    var e := s.entries[i];
    if e.body.nodeId != s.nodeId then Some(ForeignEntry)
    else if !Sound(e) then Some(SliceHashMismatch)
    else if i > 0 && !LinkedAt(s.entries, i) then Some(BrokenChain)
    else None
  }

  function EndsFault(s: Slice): Option<SliceFault> {
    if s.entries == [] then None
    else
      var last := s.entries[|s.entries| - 1];
      if last.body.seqNo > s.head.seqNo then Some(ExceedsHead)
      else if last.body.seqNo == s.head.seqNo && Some(last.hash) != s.head.hash then Some(HeadMismatch)
      else if s.entries[0].body.seqNo < s.anchor.seqNo then Some(BeforeAnchor)
      else None
  }

  /** Each fault of an entry is what it is called: another node's, a wrong hash, no link to the one before. */
  lemma EntryFaultSays(s: Slice, i: nat)
    requires i < |s.entries|
    ensures var e, fault := s.entries[i], EntryFault(s, i);
            var own, sound := e.body.nodeId == s.nodeId, e.hash == Of(e.body);
            var linked := i == 0 || (e.body.seqNo == s.entries[i - 1].body.seqNo + 1
                                     && e.body.prev == Some(s.entries[i - 1].hash));
            && (fault == Some(ForeignEntry) <==> !own)
            && (fault == Some(SliceHashMismatch) <==> own && !sound)
            && (fault == Some(BrokenChain) <==> own && sound && !linked)
            && (fault == None <==> own && sound && linked)
  {
  }

  /** And each fault of its ends: past the head, another head of that number, or before the anchor. */
  lemma EndsFaultSays(s: Slice)
    requires s.entries != []
    ensures var first, last, fault := s.entries[0], s.entries[|s.entries| - 1], EndsFault(s);
            var past := last.body.seqNo > s.head.seqNo;
            var other := last.body.seqNo == s.head.seqNo && s.head.hash != Some(last.hash);
            && (fault == Some(ExceedsHead) <==> past)
            && (fault == Some(HeadMismatch) <==> other)
            && (fault == Some(BeforeAnchor) <==> !past && !other && first.body.seqNo < s.anchor.seqNo)
            && (fault == None <==> !past && !other && first.body.seqNo >= s.anchor.seqNo)
  {
  }

  /** The first entry with a fault. */
  predicate FirstBadEntry(s: Slice, i: nat) {
    && i < |s.entries| && EntryFault(s, i).Some?
    && (forall k: nat {:trigger EntryFault(s, k)} | k < i :: EntryFault(s, k).None?)
  }

  ghost predicate EntriesFine(s: Slice) {
    forall k: nat {:trigger EntryFault(s, k)} | k < |s.entries| :: EntryFault(s, k).None?
  }

  /** Who signed is looked at first, then the entries from the oldest on, then the head and the anchor. */
  ghost predicate Reason(s: Slice, nodeKey: int, fault: Option<SliceFault>) {
    if s.signedBy != nodeKey then fault == Some(BadSignature)
    else if s.kid != s.nodeId then fault == Some(Malformed)
    else
      || (EntriesFine(s) && fault == EndsFault(s))
      || (exists i: nat {:trigger FirstBadEntry(s, i)} :: FirstBadEntry(s, i) && fault == EntryFault(s, i))
  }

  lemma FineIsAChain(s: Slice)
    ensures EntriesFine(s) <==> (forall e | e in s.entries :: e.body.nodeId == s.nodeId) && EntryChain(s.entries)
  {
    if EntriesFine(s) {
      forall i | 0 <= i < |s.entries| ensures s.entries[i].body.nodeId == s.nodeId && Sound(s.entries[i]) {
        assert EntryFault(s, i).None?;
      }
      forall i | 0 < i < |s.entries| ensures LinkedAt(s.entries, i) {
        assert EntryFault(s, i).None?;
      }
    }
  }

  /** No reason is given exactly for the acceptable slices. */
  lemma NoReasonExactlyWhenAcceptable(s: Slice, nodeKey: int, fault: Option<SliceFault>)
    requires Reason(s, nodeKey, fault)
    ensures fault.None? <==> Acceptable(s, nodeKey)
  {
    FineIsAChain(s);
  }

  /** verifyAuditSlice: accepts exactly the acceptable slices, and says what is wrong first with any other. */
  method VerifyAuditSlice(s: Slice, nodeKey: int) returns (fault: Option<SliceFault>)
    ensures fault.None? <==> Acceptable(s, nodeKey)
    ensures Reason(s, nodeKey, fault)
  {
    if s.signedBy != nodeKey { return Some(BadSignature); }
    if s.kid != s.nodeId { return Some(Malformed); }
    var i := 0;
    while i < |s.entries|
      invariant 0 <= i <= |s.entries|
      invariant forall k: nat {:trigger EntryFault(s, k)} | k < i :: EntryFault(s, k).None?
    {
      var e := s.entries[i];
      var reason := None;
      if e.body.nodeId != s.nodeId {
        reason := Some(ForeignEntry);
      } else if !Sound(e) {
        reason := Some(SliceHashMismatch);
      } else if i > 0
          && (e.body.seqNo != s.entries[i - 1].body.seqNo + 1 || e.body.prev != Some(s.entries[i - 1].hash)) {
        reason := Some(BrokenChain);
      }
      assert reason == EntryFault(s, i);
      if reason.Some? {
        assert FirstBadEntry(s, i);
        NoReasonExactlyWhenAcceptable(s, nodeKey, reason);
        return reason;
      }
      i := i + 1;
    }
    fault := EndsFault(s);
    NoReasonExactlyWhenAcceptable(s, nodeKey, fault);
  }
}
