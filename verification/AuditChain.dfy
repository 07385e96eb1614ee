/**
 * The hash chain of src/audit/audit-ledger.js: entries, what makes a list of lines one chain, what a head hash
 * determines, and the byte- and count-bounded slices a remote verifier checks.
 */
module AuditChain {
  import opened Basics

  datatype Writer = Service | Mcp | Cli

  /** An entry without its hash. */
  datatype Body = Body(seqNo: int, at: int, nodeId: int, writer: Writer, kind: int, data: int, prev: Option<Digest>)

  /** A collision-free hash: the digest of a body determines the body. Other: text that is the digest of no body. */
  datatype Digest = Of(body: Body) | Other(text: int)

  datatype Entry = Entry(body: Body, hash: Digest)

  /** One line of a segment: an entry, or text that does not parse. */
  datatype Line = Parsed(entry: Entry) | Garbled

  predicate Sound(e: Entry) {
    e.hash == Of(e.body)
  }

  predicate Linked(previous: Entry, e: Entry) {
    e.body.seqNo == previous.body.seqNo + 1 && e.body.prev == Some(previous.hash)
  }

  predicate LinkedAt(es: seq<Entry>, i: int)
    requires 0 < i < |es|
  {
    Linked(es[i - 1], es[i])
  }

  predicate EntryChain(es: seq<Entry>) {
    && (forall i {:trigger es[i]} | 0 <= i < |es| :: Sound(es[i]))
    && (forall i {:trigger LinkedAt(es, i)} | 0 < i < |es| :: LinkedAt(es, i))
  }

  /** Every line parses and the entries form one chain; the first entry's own `prev` is trusted as the anchor. */
  predicate Chain(lines: seq<Line>) {
    (forall line | line in lines :: line.Parsed?) && EntryChain(Entries(lines))
  }

  /** The entries of a list of lines that all parse. */
  function Entries(lines: seq<Line>): (es: seq<Entry>)
    requires forall line | line in lines :: line.Parsed?
    ensures |es| == |lines|
    ensures forall i | 0 <= i < |lines| :: es[i] == lines[i].entry
  {
    if lines == [] then [] else [lines[0].entry] + Entries(lines[1..])
  }

  // ---- What a chain and its head determine ----

  lemma {:induction false} SeqsAreConsecutive(es: seq<Entry>, i: nat, j: nat)
    requires EntryChain(es) && i <= j < |es|
    ensures es[j].body.seqNo == es[i].body.seqNo + (j - i)
    decreases j
  {
    if i < j {
      SeqsAreConsecutive(es, i, j - 1);
      assert LinkedAt(es, j);
    }
  }

  /** No two entries of a chain share a hash. */
  lemma HashesAreDistinct(es: seq<Entry>, i: nat, j: nat)
    requires EntryChain(es) && i < |es| && j < |es| && es[i].hash == es[j].hash
    ensures i == j
  {
    assert Sound(es[i]) && Sound(es[j]);
    if i <= j {
      SeqsAreConsecutive(es, i, j);
    } else {
      SeqsAreConsecutive(es, j, i);
    }
  }

  /**
   * A head hash pins everything under it: two chains that end in it agree entry for entry, back to where the shorter
   * begins.
   */
  lemma {:induction false} HeadDeterminesChain(a: seq<Entry>, b: seq<Entry>)
    requires EntryChain(a) && EntryChain(b) && 0 < |b| <= |a|
    requires a[|a| - 1].hash == b[|b| - 1].hash
    ensures a[|a| - |b|..] == b
  {
    var m, n := |a| - 1, |b| - 1;
    assert Sound(a[m]) && Sound(b[n]);
    if n > 0 {
      assert LinkedAt(a, m) && LinkedAt(b, n);
      ChainParts(a, 0, m);
      ChainParts(b, 0, n);
      HeadDeterminesChain(a[..m], b[..n]);
      assert a[|a| - |b|..] == a[..m][m - n..] + [a[m]];
      assert b == b[..n] + [b[n]];
    }
  }

  lemma ChainParts(es: seq<Entry>, i: nat, j: nat)
    requires EntryChain(es) && i <= j <= |es|
    ensures EntryChain(es[i..j])
  {
    forall k | 0 < k < j - i ensures LinkedAt(es[i..j], k) {
      assert LinkedAt(es, i + k);
    }
  }

  // ---- Bounded slices ----

  function Bytes(es: seq<Entry>, size: Entry -> nat): nat {
    if es == [] then 0 else Bytes(es[..|es| - 1], size) + size(es[|es| - 1])
  }

  /** A page: at most `cap` entries within `maxBytes`, or one entry whatever its size. */
  predicate Fits(es: seq<Entry>, cap: nat, maxBytes: int, size: Entry -> nat) {
    |es| <= cap && (|es| <= 1 || Bytes(es, size) <= maxBytes)
  }

  /** The longest page that starts where the list does, grown one entry at a time. */
  function Grow(es: seq<Entry>, k: nat, cap: nat, maxBytes: int, size: Entry -> nat): (n: nat)
    requires k <= |es|
    ensures k <= n <= |es|
    decreases |es| - k
  {
    if k < |es| && Fits(es[..k + 1], cap, maxBytes, size) then Grow(es, k + 1, cap, maxBytes, size) else k
  }

  function Reversed(es: seq<Entry>): (r: seq<Entry>)
    ensures |r| == |es| && forall i | 0 <= i < |es| :: r[i] == es[|es| - 1 - i]
  {
    if es == [] then [] else Reversed(es[1..]) + [es[0]]
  }

  lemma {:induction false} BytesGrow(es: seq<Entry>, i: nat, j: nat, size: Entry -> nat)
    requires i <= j <= |es|
    ensures Bytes(es[..i], size) <= Bytes(es[..j], size)
    decreases j
  {
    if i < j {
      BytesGrow(es, i, j - 1, size);
      assert es[..j][..j - 1] == es[..j - 1];
    }
  }

  /** The page fits, is not empty while entries remain, and no longer page would fit. */
  lemma {:induction false} GrowIsGreedy(es: seq<Entry>, k: nat, cap: nat, maxBytes: int, size: Entry -> nat)
    requires k <= |es| && Fits(es[..k], cap, maxBytes, size)
    ensures var n := Grow(es, k, cap, maxBytes, size);
            && Fits(es[..n], cap, maxBytes, size)
            && (k == 0 && es != [] && cap > 0 ==> n > 0)
            && (forall m | n < m <= |es| :: !Fits(es[..m], cap, maxBytes, size))
    decreases |es| - k
  {
    if k < |es| && Fits(es[..k + 1], cap, maxBytes, size) {
      GrowIsGreedy(es, k + 1, cap, maxBytes, size);
    } else {
      forall m | k < m <= |es| ensures !Fits(es[..m], cap, maxBytes, size) {
        BytesGrow(es, k + 1, m, size);
      }
    }
  }

  /** One turn of the page loop: what the next entry does to the size, and whether the page takes it. */
  lemma GrowByOne(es: seq<Entry>, k: nat, cap: nat, maxBytes: int, size: Entry -> nat)
    requires k < |es|
    ensures Bytes(es[..k + 1], size) == Bytes(es[..k], size) + size(es[k])
    ensures Fits(es[..k + 1], cap, maxBytes, size) <==>
          k < cap && (k == 0 || Bytes(es[..k], size) + size(es[k]) <= maxBytes)
    ensures Fits(es[..k + 1], cap, maxBytes, size) ==>
          Grow(es, k, cap, maxBytes, size) == Grow(es, k + 1, cap, maxBytes, size)
    ensures !Fits(es[..k + 1], cap, maxBytes, size) ==> Grow(es, k, cap, maxBytes, size) == k
  {
    assert es[..k + 1][..k] == es[..k];
  }

  const MAX_SLICE := 200

  function Cap(limit: Option<int>): (cap: nat)
    ensures 1 <= cap <= MAX_SLICE
  {
    var n := if limit.Some? then limit.value else MAX_SLICE;
    if n < 1 then 1 else if n > MAX_SLICE then MAX_SLICE else n
  }

  // ---- The signed slice and its verifier ----

  datatype Head = Head(seqNo: int, hash: Option<Digest>)

  datatype Anchor = Anchor(seqNo: int, prev: Option<Digest>)

  datatype Slice = Slice(kid: int, nodeId: int, entries: seq<Entry>, head: Head, anchor: Anchor, signedBy: int)

  function HeadOf(es: seq<Entry>): Head {
    if es == [] then Head(0, None) else Head(es[|es| - 1].body.seqNo, Some(es[|es| - 1].hash))
  }

  function AnchorOf(es: seq<Entry>): Anchor {
    if es == [] then Anchor(0, None) else Anchor(es[0].body.seqNo, es[0].body.prev)
  }

  /** A page has room for as many entries as were asked for, for at least one and at most two hundred. */
  lemma CapSays(limit: Option<int>)
    ensures limit.None? ==> Cap(limit) == 200
    ensures limit.Some? && 1 <= limit.value <= 200 ==> Cap(limit) == limit.value
    ensures limit.Some? && limit.value < 1 ==> Cap(limit) == 1
    ensures limit.Some? && limit.value > 200 ==> Cap(limit) == 200
  {
  }

  /** The head names the newest entry and the anchor what comes before the oldest; of nothing they name nothing. */
  lemma EndsSay(es: seq<Entry>)
    ensures es == [] ==> HeadOf(es) == Head(0, None) && AnchorOf(es) == Anchor(0, None)
    ensures es != [] ==>
              var oldest, newest := es[0], es[|es| - 1];
              && HeadOf(es) == Head(newest.body.seqNo, Some(newest.hash))
              && AnchorOf(es) == Anchor(oldest.body.seqNo, oldest.body.prev)
  {
  }

  /** What verifyAuditSlice accepts. */
  predicate Acceptable(s: Slice, nodeKey: int) {
    && s.signedBy == nodeKey && s.kid == s.nodeId
    && (forall e | e in s.entries :: e.body.nodeId == s.nodeId)
    && EntryChain(s.entries)
    && (s.entries != [] ==>
          var last := s.entries[|s.entries| - 1];
          && s.entries[0].body.seqNo >= s.anchor.seqNo && last.body.seqNo <= s.head.seqNo
          && (last.body.seqNo == s.head.seqNo ==> s.head.hash == Some(last.hash)))
  }

  /** Every contiguous part of a node's own chain, signed by it with the chain's head and anchor, is accepted. */
  lemma EverySliceIsAccepted(all: seq<Entry>, i: nat, j: nat, nodeId: int, nodeKey: int)
    requires EntryChain(all) && i <= j <= |all|
    requires forall e | e in all :: e.body.nodeId == nodeId
    ensures Acceptable(Slice(nodeId, nodeId, all[i..j], HeadOf(all), AnchorOf(all), nodeKey), nodeKey)
  {
    var part := all[i..j];
    ChainParts(all, i, j);
    assert forall e | e in part :: e in all;
    if i < j {
      SeqsAreConsecutive(all, 0, i);
      SeqsAreConsecutive(all, j - 1, |all| - 1);
      assert part[0] == all[i] && part[|part| - 1] == all[j - 1];
      if j < |all| {
        assert all[j - 1].body.seqNo < all[|all| - 1].body.seqNo;
      }
    }
  }

  /**
   * An accepted slice that reaches its signed head is exactly the end of the chain that has that head, back to where
   * the shorter of them begins: nothing was cut out or changed. Its anchor bounds it: one that is no older than the
   * ledger's keeps it within the ledger.
   */
  lemma AcceptedToHeadIsTheLedger(all: seq<Entry>, s: Slice, nodeKey: int)
    requires EntryChain(all) && all != [] && s.head == HeadOf(all) && Acceptable(s, nodeKey)
    requires s.entries != [] && s.entries[|s.entries| - 1].body.seqNo == s.head.seqNo
    ensures |s.entries| <= |all| ==> s.entries == all[|all| - |s.entries|..]
    ensures |s.entries| >= |all| ==> all == s.entries[|s.entries| - |all|..]
    ensures s.anchor.seqNo >= AnchorOf(all).seqNo ==> |s.entries| <= |all|
  {
    if |s.entries| <= |all| {
      HeadDeterminesChain(all, s.entries);
    }
    if |s.entries| >= |all| {
      HeadDeterminesChain(s.entries, all);
    }
    SeqsAreConsecutive(all, 0, |all| - 1);
    SeqsAreConsecutive(s.entries, 0, |s.entries| - 1);
  }

  // ---- Paging ----

  function IndexOf(es: seq<Entry>, hash: Digest): (i: int)
    ensures -1 <= i < |es|
    ensures i >= 0 ==> es[i].hash == hash
    ensures i == -1 <==> forall e | e in es :: e.hash != hash
  {
    if es == [] then -1
    else if es[0].hash == hash then 0
    else
      var i := IndexOf(es[1..], hash);
      assert forall e | e in es :: e == es[0] || e in es[1..];
      if i == -1 then -1 else i + 1
  }

  /** Entries after the one with the hash; a null hash, or one no longer retained, starts from the oldest. */
  function EntriesAfter(es: seq<Entry>, after: Option<Digest>): seq<Entry> {
    if after.None? then es else es[IndexOf(es, after.value) + 1..]
  }

  lemma AfterOwnEntry(es: seq<Entry>, i: nat)
    requires EntryChain(es) && i < |es|
    ensures EntriesAfter(es, Some(es[i].hash)) == es[i + 1..]
  {
    var k := IndexOf(es, es[i].hash);
    assert es[i] in es;
    HashesAreDistinct(es, i, k);
  }

  /** How many of the candidates an answer holds: not more than there are, and some while there are any. */
  ghost predicate Progress(page: seq<Entry> -> nat) {
    forall es {:trigger page(es)} :: page(es) <= |es| && (es != [] ==> page(es) > 0)
  }

  /** The pages of slice(), for one limit and byte cap. */
  ghost function Pages(cap: nat, maxBytes: int, size: Entry -> nat): seq<Entry> -> nat {
    es => Grow(es, 0, cap, maxBytes, size)
  }

  lemma PagesProgress(cap: nat, maxBytes: int, size: Entry -> nat)
    requires cap > 0
    ensures Progress(Pages(cap, maxBytes, size))
  {
    forall es ensures Pages(cap, maxBytes, size)(es) <= |es| && (es != [] ==> Pages(cap, maxBytes, size)(es) > 0) {
      GrowIsGreedy(es, 0, cap, maxBytes, size);
    }
  }

  /** What a mirror that has `from` entries is offered when it asks again with the last hash it received. */
  function Offered(all: seq<Entry>, from: nat): seq<Entry>
    requires from <= |all|
  {
    EntriesAfter(all, if from == 0 then None else Some(all[from - 1].hash))
  }

  lemma OfferedIsTheRest(all: seq<Entry>, from: nat)
    requires EntryChain(all) && from <= |all|
    ensures Offered(all, from) == all[from..]
  {
    if from > 0 {
      AfterOwnEntry(all, from - 1);
    }
  }

  ghost function Mirror(all: seq<Entry>): nat -> seq<Entry> {
    (from: nat) => if from <= |all| then Offered(all, from) else []
  }

  ghost predicate Offers(all: seq<Entry>, ask: nat -> seq<Entry>) {
    forall from: nat | from <= |all| :: ask(from) == all[from..]
  }

  lemma MirrorOffersTheRest(all: seq<Entry>)
    requires EntryChain(all)
    ensures Offers(all, Mirror(all))
  {
    forall from: nat | from <= |all| ensures Mirror(all)(from) == all[from..] {
      OfferedIsTheRest(all, from);
    }
  }

  /** The pages received by asking again and again, put together. */
  ghost function ReadForward(all: seq<Entry>, from: nat, ask: nat -> seq<Entry>, page: seq<Entry> -> nat): seq<Entry>
    requires from <= |all| && Offers(all, ask) && Progress(page)
    decreases |all| - from
  {
    var offered := ask(from);
    if offered == [] then [] else offered[..page(offered)] + ReadForward(all, from + page(offered), ask, page)
  }

  lemma PageThenRest(all: seq<Entry>, from: nat, n: nat)
    requires from + n <= |all|
    ensures all[from..from + n] + all[from + n..] == all[from..]
  {
  }

  /** One more page behind what has been read. */
  lemma OnePageOn(all: seq<Entry>, from: nat, ask: nat -> seq<Entry>, page: seq<Entry> -> nat) returns (n: nat)
    requires from < |all| && Offers(all, ask) && Progress(page)
    ensures 0 < n <= |all| - from
    ensures ReadForward(all, from, ask, page) == all[from..from + n] + ReadForward(all, from + n, ask, page)
  {
    n := page(ask(from));
    assert ask(from) == all[from..];
    assert all[from..][..n] == all[from..from + n];
  }

  lemma NoPageOn(all: seq<Entry>, ask: nat -> seq<Entry>, page: seq<Entry> -> nat)
    requires Offers(all, ask) && Progress(page)
    ensures ReadForward(all, |all|, ask, page) == []
  {
    assert ask(|all|) == all[|all|..] == [];
  }

  lemma {:induction false} ForwardPagesRebuild(all: seq<Entry>, from: nat, ask: nat -> seq<Entry>,
      page: seq<Entry> -> nat)
    requires from <= |all| && Offers(all, ask) && Progress(page)
    ensures ReadForward(all, from, ask, page) == all[from..]
    decreases |all| - from
  {
    if from == |all| {
      NoPageOn(all, ask, page);
    } else {
      var n := OnePageOn(all, from, ask, page);
      ForwardPagesRebuild(all, from + n, ask, page);
      PageThenRest(all, from, n);
    }
  }

  /** Paging forward by the last hash received rebuilds the ledger exactly, for any limit and byte cap. */
  lemma ForwardPagingRebuilds(all: seq<Entry>, cap: nat, maxBytes: int, size: Entry -> nat)
    requires EntryChain(all) && cap > 0
    ensures Offers(all, Mirror(all)) && Progress(Pages(cap, maxBytes, size))
    ensures ReadForward(all, 0, Mirror(all), Pages(cap, maxBytes, size)) == all
  {
    MirrorOffersTheRest(all);
    PagesProgress(cap, maxBytes, size);
    ForwardPagesRebuild(all, 0, Mirror(all), Pages(cap, maxBytes, size));
  }

  /** The phone's history: entries before a sequence number, in ledger order. */
  function Before(es: seq<Entry>, upTo: Option<int>): seq<Entry> {
    if upTo.None? then es
    else if es == [] then []
    else (if es[0].body.seqNo < upTo.value then [es[0]] else []) + Before(es[1..], upTo)
  }

  lemma {:induction false} BeforeIsPrefix(es: seq<Entry>, from: nat, i: nat)
    requires EntryChain(es) && from <= i < |es|
    ensures Before(es[from..], Some(es[i].body.seqNo)) == es[from..i]
    decreases |es| - from
  {
    var rest := es[from..];
    SeqsAreConsecutive(es, from, i);
    if from < i {
      BeforeIsPrefix(es, from + 1, i);
      assert rest[1..] == es[from + 1..];
      assert es[from..i] == [es[from]] + es[from + 1..i];
    } else {
      NothingBefore(es, i, i);
    }
  }

  lemma {:induction false} NothingBefore(es: seq<Entry>, i: nat, k: nat)
    requires EntryChain(es) && i <= k <= |es| && i < |es|
    ensures Before(es[k..], Some(es[i].body.seqNo)) == []
    decreases |es| - k
  {
    if k < |es| {
      SeqsAreConsecutive(es, i, k);
      assert es[k..][1..] == es[k + 1..];
      NothingBefore(es, i, k + 1);
    }
  }

  /** A phone that has read back to entry `end` and asks again with the first sequence number it received. */
  ghost function ReadBackward(all: seq<Entry>, end: nat, page: seq<Entry> -> nat): seq<Entry>
    requires EntryChain(all) && end <= |all| && Progress(page)
    decreases end
  {
    var candidates := Before(all, if end == |all| then None else Some(all[end].body.seqNo));
    var n := page(Reversed(candidates));
    BeforeEnd(all, end);
    if candidates == [] then [] else ReadBackward(all, end - n, page) + candidates[|candidates| - n..]
  }

  lemma BeforeEnd(all: seq<Entry>, end: nat)
    requires EntryChain(all) && end <= |all|
    ensures Before(all, if end == |all| then None else Some(all[end].body.seqNo)) == all[..end]
  {
    if end < |all| {
      BeforeIsPrefix(all, 0, end);
      assert all[0..] == all;
    }
  }

  /** One more page in front of what has been read. */
  lemma OnePageBack(all: seq<Entry>, end: nat, page: seq<Entry> -> nat) returns (n: nat)
    requires EntryChain(all) && 0 < end <= |all| && Progress(page)
    ensures 0 < n <= end && ReadBackward(all, end, page) == ReadBackward(all, end - n, page) + all[end - n..end]
  {
    var candidates := all[..end];
    BeforeEnd(all, end);
    n := page(Reversed(candidates));
    assert |Reversed(candidates)| == end;
    assert candidates[end - n..] == all[end - n..end];
  }

  lemma NoPageBack(all: seq<Entry>, page: seq<Entry> -> nat)
    requires EntryChain(all) && Progress(page)
    ensures ReadBackward(all, 0, page) == []
  {
    BeforeEnd(all, 0);
  }

  lemma PageInFront(all: seq<Entry>, end: nat, n: nat)
    requires n <= end <= |all|
    ensures all[..end - n] + all[end - n..end] == all[..end]
  {
  }

  lemma {:induction false} BackwardPagesRebuild(all: seq<Entry>, end: nat, page: seq<Entry> -> nat)
    requires EntryChain(all) && end <= |all| && Progress(page)
    ensures ReadBackward(all, end, page) == all[..end]
    decreases end
  {
    if end == 0 {
      NoPageBack(all, page);
    } else {
      var n := OnePageBack(all, end, page);
      BackwardPagesRebuild(all, end - n, page);
      PageInFront(all, end, n);
    }
  }

  /** Paging backward by the first sequence number received rebuilds the ledger exactly, for any limit and byte cap. */
  lemma BackwardPagingRebuilds(all: seq<Entry>, cap: nat, maxBytes: int, size: Entry -> nat)
    requires EntryChain(all) && cap > 0
    ensures Progress(Pages(cap, maxBytes, size)) && ReadBackward(all, |all|, Pages(cap, maxBytes, size)) == all
  {
    PagesProgress(cap, maxBytes, size);
    BackwardPagesRebuild(all, |all|, Pages(cap, maxBytes, size));
    assert all[..|all|] == all;
  }
}
