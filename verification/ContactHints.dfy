/** The numbered batch that goes out and the reply hint under it: sent back as printed, the hint answers as it says. */
module ContactHints {
  import opened Basics
  import opened Jsonl
  import opened ContactFormat
  import opened ContactReplies

  // ---- Numbers as they are printed ----

  function DigitChar(d: nat): (c: char)
    requires d < 10
    ensures IsDigit(c) && DigitValue(c) == d
  {
    ('0' as nat + d) as char
  }

  function Decimal(n: nat): (s: string)
    ensures s != [] && (forall c | c in s :: IsDigit(c))
    ensures n >= 10 ==> |s| >= 2
    ensures n >= 100 ==> |s| >= 3
    decreases n
  {
    if n < 10 then [DigitChar(n)] else Decimal(n / 10) + [DigitChar(n % 10)]
  }

  // ---- Option ids ----

  predicate IsIdChar(c: char) {
    'a' <= c <= 'z' || IsDigit(c) || c == '-'
  }

  /** What a question demands of its option ids. */
  predicate IsOptionId(id: string) {
    0 < |id| <= 16 && (forall i | 0 <= i < |id| :: IsIdChar(id[i]))
  }

  lemma IdIsPlain(id: string)
    requires IsOptionId(id)
    ensures TrimStart(id) == id && Trim(id) == id && OneLine(id) && MatchKey(id) != []
    ensures MatchKey(Trim(id)) == MatchKey(id)
  {
    assert IsIdChar(id[0]) && IsIdChar(id[|id| - 1]);
  }

  lemma IdIsNotNumbered(id: string)
    requires IsOptionId(id)
    ensures Numbered(id).None?
  {
    assert forall s: string :: s != [] && IsIdChar(s[0]) ==> AfterMark(s) == s;
    if |id| > 1 {
      assert IsIdChar(id[1]);
      if |id| > 2 {
        assert id[2..][0] == id[2] && IsIdChar(id[2]);
      }
      assert id[1..][0] == id[1];
    }
  }

  lemma IdIsNoHeader(item: Item, id: string)
    requires IsOptionId(id)
    ensures !IsItemHeader(item, id)
  {
    assert IsIdChar(id[0]);
    assert !StartsWith(id, "[HIGH] ");
    var prefix := item.caseTitle + " \U{2014} ";
    assert prefix[|item.caseTitle|] == ' ' && !IsIdChar(' ');
  }

  // ---- The hint as a line ----

  /** "#TOKEN <answer>" for a single item, "#TOKEN <n> <answer>" otherwise. */
  function HintText(token: string, total: nat, n: nat, answer: string): string {
    "#" + token + " " + (if total == 1 then answer else Decimal(n) + " " + answer)
  }

  lemma HintBody(n: nat, id: string)
    requires IsOptionId(id)
    ensures var body := Decimal(n) + " " + id;
      OneLine(body) && TrimStart(body) == body && Numbered(body) == (if n < 100 then Some((n, id)) else None)
  {
    var digits := Decimal(n);
    var body := digits + " " + id;
    IdIsPlain(id);
    assert body[0] == digits[0] && digits[0] in digits;
    forall c | c in body ensures !IsTerminator(c) {
    }
    NumberedBody(n, id);
  }

  lemma SpaceThenId(n: nat, id: string)
    requires IsOptionId(id)
    ensures AfterNumber(n, " " + id) == Some((n, id))
  {
    IdIsPlain(id);
    assert (" " + id)[1..] == id;
  }

  /** Three digits are no item's number. */
  lemma LongNumber(n: nat, tail: string)
    requires n >= 100
    ensures Numbered(Decimal(n) + tail).None?
  {
    var digits := Decimal(n);
    var body := digits + tail;
    assert body[0] == digits[0] && body[1] == digits[1] && body[2..][0] == digits[2];
    assert digits[0] in digits && digits[1] in digits && digits[2] in digits;
  }

  lemma OneDigit(d: char, tail: string)
    requires IsDigit(d) && tail != [] && !IsDigit(tail[0])
    ensures Numbered([d] + tail) == AfterNumber(DigitValue(d), tail)
  {
    assert ([d] + tail)[1] == tail[0] && ([d] + tail)[1..] == tail;
  }

  lemma TwoDigits(d: char, e: char, tail: string)
    requires IsDigit(d) && IsDigit(e)
    ensures Numbered([d, e] + tail) == AfterNumber(10 * DigitValue(d) + DigitValue(e), tail)
  {
    assert ([d, e] + tail)[2..] == tail;
  }

  lemma NumberedBody(n: nat, id: string)
    requires IsOptionId(id)
    ensures Numbered(Decimal(n) + " " + id) == (if n < 100 then Some((n, id)) else None)
  {
    SpaceThenId(n, id);
    assert Decimal(n) + " " + id == Decimal(n) + (" " + id);
    if n < 10 {
      OneDigit(DigitChar(n), " " + id);
    } else if n < 100 {
      TwoDigits(DigitChar(n / 10), DigitChar(n % 10), " " + id);
      assert Decimal(n) == [DigitChar(n / 10), DigitChar(n % 10)];
    } else {
      LongNumber(n, " " + id);
    }
  }

  lemma {:induction false} NoNewlineSplit(line: string)
    requires OneLine(line)
    ensures Split(line) == [line]
  {
    SplitOne(line);
  }

  lemma WordedOne(line: string)
    requires Trim(line) == line && line != [] && line[0] != '>'
    ensures Worded([line]) == [line]
  {
    var lines := [line];
    assert lines[1..] == [];
  }

  lemma UpperToken(token: string)
    requires IsToken(token)
    ensures Upper(token) == token
  {
    forall i | 0 <= i < |token| ensures UpperChar(token[i]) == token[i] {
      assert token[i] in token;
    }
  }

  lemma HintToken(token: string, body: string)
    requires IsToken(token) && OneLine(body) && TrimStart(body) == body
    ensures LineToken("#" + token + " " + body) == Some((token, body))
  {
    var line := "#" + token + " " + body;
    assert forall i | 0 <= i < 6 :: token[i] in token && line[i + 1] == token[i];
    assert line[1..7] == token && line[7] == ' ' && line[7..] == " " + body;
    assert (" " + body)[1..] == body;
  }

  /** The hint is one line, names the batch's token, and its rest is what follows. */
  lemma HintIsOneLine(token: string, body: string)
    requires IsToken(token) && body != [] && OneLine(body) && TrimStart(body) == body && !IsSpace(body[|body| - 1])
    ensures var line := "#" + token + " " + body;
      ReplyLines(line) == [line] && LineToken(line) == Some((token, body)) && Upper(token) == token
  {
    var line := "#" + token + " " + body;
    UpperToken(token);
    HintToken(token, body);
    assert line[|line| - 1] == body[|body| - 1];
    forall c | c in line ensures !IsTerminator(c) {
      assert c == '#' || c in token || c == ' ' || c in body;
    }
    NoNewlineSplit(line);
    WordedOne(line);
  }

  // ---- The hint as an answer ----

  /** A batch as it is rendered: numbered from one, its own token like no item's. */
  predicate Rendered(batch: Batch) {
    && IsToken(batch.token)
    && (forall k | 0 <= k < |batch.items| :: batch.items[k].n == k + 1 && batch.items[k].token != batch.token)
  }

  lemma {:induction false} NoItemToken(items: seq<Item>, token: string)
    requires forall k | 0 <= k < |items| :: items[k].token != token
    ensures ByToken(items, token) == |items|
    decreases |items|
  {
    if items != [] {
      NoItemToken(items[1..], token);
    }
  }

  lemma {:induction false} ByNumberFinds(items: seq<Item>, n: nat, base: nat)
    requires forall k | 0 <= k < |items| :: items[k].n == base + k
    ensures ByNumber(items, n) == if base <= n < base + |items| then n - base else |items|
    decreases |items|
  {
    if items != [] {
      ByNumberFinds(items[1..], n, base + 1);
    }
  }

  lemma OneAnswer(f: Found)
    ensures Standing([f], 1) == [f]
  {
    assert Stands([f], 0) && Standing([f], 0) == [];
  }

  lemma FoundInOne(batch: Batch, threaded: bool, line: string)
    ensures FoundIn(batch, threaded, [line]) ==
      match LineAnswer(batch, threaded, line) case Some(f) => [f] case None => []
  {
    var lines := [line];
    assert lines[1..] == [] && FoundBy(Reader(batch, threaded), []) == [];
  }

  /** A reply of one line that names the batch's token. */
  lemma OneLineReply(batch: Batch, line: string, threaded: bool, quoteStarts: (seq<string>, nat) -> bool)
    requires ReplyLines(line) == [line] && NamesToken(batch, line)
    ensures ParseReply(batch, line, threaded, quoteStarts) ==
      match LineAnswer(batch, threaded, line) case Some(f) => Reply([f], false) case None => Reply([], true)
  {
    FoundInOne(batch, threaded, line);
    assert line in [line];
    var answer := LineAnswer(batch, threaded, line);
    if answer.Some? {
      OneAnswer(answer.value);
    }
  }

  /** An option's own id picks it exactly when no other option has that id or caption. */
  lemma IdPicksItself(items: seq<Item>, i: nat)
    requires i < |items| && items[i].options != [] && IsOptionId(items[i].options[0].id)
    ensures var id := items[i].options[0].id;
      AnswerFor(items, i, id, true) == Some(Found(i, Pick(id))) <==> OnlyMatch(items[i].options, 0, MatchKey(id))
  {
    var options := items[i].options;
    var id := options[0].id;
    IdIsPlain(id);
    IdIsNoHeader(items[i], id);
    PicksExactlyTheOnlyMatch(options, id);
    if OptionOrText(options, id).Pick? {
      var k: nat :| OnlyMatch(options, k, MatchKey(id));
      assert Matches(options[0], MatchKey(id));
    }
  }

  /** What follows the token in the hint. */
  function HintRest(total: nat, n: nat, answer: string): string {
    if total == 1 then answer else Decimal(n) + " " + answer
  }

  lemma HintLine(token: string, total: nat, n: nat, id: string)
    requires IsToken(token) && IsOptionId(id)
    ensures var line := HintText(token, total, n, id);
      ReplyLines(line) == [line] && LineToken(line) == Some((token, HintRest(total, n, id))) && Upper(token) == token
    ensures Numbered(HintRest(total, n, id)) == (if total == 1 || n >= 100 then None else Some((n, id)))
  {
    var rest := HintRest(total, n, id);
    IdIsPlain(id);
    IdIsNotNumbered(id);
    HintBody(n, id);
    assert rest[|rest| - 1] == id[|id| - 1];
    HintIsOneLine(token, rest);
  }

  lemma NumberedAnswer(batch: Batch, threaded: bool, line: string, rest: string)
    requires Rendered(batch) && LineToken(line) == Some((batch.token, rest)) && Upper(batch.token) == batch.token
    ensures NamesToken(batch, line) && LineAnswer(batch, threaded, line) == AnswerByNumber(batch.items, rest, true)
  {
    NoItemToken(batch.items, batch.token);
  }

  lemma NumberIsForItem(items: seq<Item>, i: nat, id: string, rest: string)
    requires i < |items| && (forall k | 0 <= k < |items| :: items[k].n == k + 1)
    requires Numbered(rest) == (if |items| == 1 || i + 1 >= 100 then None else Some((i + 1, id)))
    requires |items| == 1 ==> rest == id
    ensures AnswerByNumber(items, rest, true) ==
      if |items| == 1 || i + 1 < 100 then AnswerFor(items, i, id, true) else None
  {
    ByNumberFinds(items, i + 1, 1);
  }

  /** The hint's line with any plain word for its answer. */
  lemma HintAnswer(batch: Batch, i: nat, threaded: bool, id: string)
    requires Rendered(batch) && i < |batch.items| && IsOptionId(id)
    ensures var line := HintText(batch.token, |batch.items|, i + 1, id);
      ReplyLines(line) == [line] && NamesToken(batch, line)
      && LineAnswer(batch, threaded, line) ==
        (if |batch.items| == 1 || i + 1 < 100 then AnswerFor(batch.items, i, id, true) else None)
  {
    var items, rest := batch.items, HintRest(|batch.items|, i + 1, id);
    HintLine(batch.token, |items|, i + 1, id);
    NumberedAnswer(batch, threaded, HintText(batch.token, |items|, i + 1, id), rest);
    NumberIsForItem(items, i, id, rest);
  }

  /**
   * Sending back the printed hint answers exactly that item with exactly that option, if and only if the number has at
   * most two digits (or is left out) and no other option of the item has the same id or caption.
   */
  lemma HintWorksExactlyWhen(batch: Batch, i: nat, threaded: bool, quoteStarts: (seq<string>, nat) -> bool)
    requires Rendered(batch) && i < |batch.items|
    requires batch.items[i].options != [] && IsOptionId(batch.items[i].options[0].id)
    ensures var id := batch.items[i].options[0].id;
      ParseReply(batch, HintText(batch.token, |batch.items|, i + 1, id), threaded, quoteStarts)
        == Reply([Found(i, Pick(id))], false)
      <==> (|batch.items| == 1 || i + 1 < 100) && OnlyMatch(batch.items[i].options, 0, MatchKey(id))
  {
    HintAnswer(batch, i, threaded, batch.items[i].options[0].id);
    var line := HintText(batch.token, |batch.items|, i + 1, batch.items[i].options[0].id);
    OneLineReply(batch, line, threaded, quoteStarts);
    IdPicksItself(batch.items, i);
  }

  /** From the hundredth item on a hint answers nothing. */
  lemma HundredthItemFails(batch: Batch, i: nat, threaded: bool, quoteStarts: (seq<string>, nat) -> bool)
    requires Rendered(batch) && 99 <= i < |batch.items|
    requires batch.items[i].options != [] && IsOptionId(batch.items[i].options[0].id)
    ensures var id := batch.items[i].options[0].id;
      ParseReply(batch, HintText(batch.token, |batch.items|, i + 1, id), threaded, quoteStarts) == Reply([], true)
  {
    HintAnswer(batch, i, threaded, batch.items[i].options[0].id);
    var line := HintText(batch.token, |batch.items|, i + 1, batch.items[i].options[0].id);
    OneLineReply(batch, line, threaded, quoteStarts);
  }

  lemma SharedKeyBatch(batch: Batch)
    requires batch == Batch("K7QD4M", [Item(1, "AAAAAA", [Choice("a", "Yes"), Choice("b", "a")], "")])
    ensures Rendered(batch) && HintText("K7QD4M", 1, 1, "a") == "#K7QD4M a"
  {
  }

  lemma {:induction false} SharedKeyReply(batch: Batch, threaded: bool, quoteStarts: (seq<string>, nat) -> bool)
    requires Rendered(batch) && |batch.items| == 1
    requires batch.items[0].options == [Choice("a", "Yes"), Choice("b", "a")]
    ensures ParseReply(batch, HintText(batch.token, 1, 1, "a"), threaded, quoteStarts)
      == Reply([Found(0, Text("a"))], false)
  {
    HintAnswer(batch, 0, threaded, "a");
    OneLineReply(batch, HintText(batch.token, 1, 1, "a"), threaded, quoteStarts);
    SharedKeyIsText(batch.items);
  }

  /**
   * Two options of one question, the caption of one the id of the other: the hint says `a`, and `a` is taken as text.
   */
  lemma {:induction false} SharedKeyHintFails(threaded: bool, quoteStarts: (seq<string>, nat) -> bool)
    ensures var options := [Choice("a", "Yes"), Choice("b", "a")];
      var batch := Batch("K7QD4M", [Item(1, "AAAAAA", options, "")]);
      && Rendered(batch) && HintText("K7QD4M", 1, 1, "a") == "#K7QD4M a"
      && ParseReply(batch, "#K7QD4M a", threaded, quoteStarts) == Reply([Found(0, Text("a"))], false)
  {
    var batch := Batch("K7QD4M", [Item(1, "AAAAAA", [Choice("a", "Yes"), Choice("b", "a")], "")]);
    SharedKeyBatch(batch);
    SharedKeyReply(batch, threaded, quoteStarts);
  }

  lemma SharedKeyIsText(items: seq<Item>)
    requires |items| == 1 && items[0].options == [Choice("a", "Yes"), Choice("b", "a")]
    ensures AnswerFor(items, 0, "a", true) == Some(Found(0, Text("a")))
  {
    var options := items[0].options;
    IdIsPlain("a");
    IdIsNoHeader(items[0], "a");
    PicksExactlyTheOnlyMatch(options, "a");
    assert Matches(options[0], MatchKey("a")) && Matches(options[1], MatchKey("a"));
    assert forall k: nat :: !OnlyMatch(options, k, MatchKey("a"));
  }

  // ---- Items without options ----

  lemma LineGivesText(batch: Batch, threaded: bool, line: string)
    requires LineAnswer(batch, threaded, line).Some?
    requires batch.items[LineAnswer(batch, threaded, line).value.item].options == []
    ensures LineAnswer(batch, threaded, line).value.answer.Text? && LineToken(line).Some?
  {
  }

  // ---- Rendering ----

  datatype Kind = Question | Approval | Briefing | OtherKind

  datatype Urgency = High | Normal | Low

  datatype Record = Record(kind: Kind, text: string, options: seq<Choice>, urgency: Urgency, createdAt: int,
      appOnly: bool)

  datatype Entry = Entry(caseTitle: string, token: string, record: Record)

  /** answerable: not merely announced. */
  datatype Shown = Shown(item: Item, kind: Kind, text: string, answerable: bool)

  const TRUNCATE_AT := 280

  function Rank(u: Urgency): nat {
    match u case High => 0 case Normal => 1 case Low => 2
  }

  /** The most urgent first, then the oldest. */
  predicate Before(a: Entry, b: Entry) {
    Rank(a.record.urgency) < Rank(b.record.urgency)
    || (a.record.urgency == b.record.urgency && a.record.createdAt <= b.record.createdAt)
  }

  function Insert(e: Entry, sorted: seq<Entry>): seq<Entry> {
    if sorted == [] || Before(e, sorted[0]) then [e] + sorted else [sorted[0]] + Insert(e, sorted[1..])
  }

  function Sort(entries: seq<Entry>): seq<Entry> {
    if entries == [] then [] else Insert(entries[0], Sort(entries[1..]))
  }

  /** Answered only in the app or on the paired phone. */
  predicate NeedsApp(r: Record) {
    r.kind.Approval? || r.appOnly
  }

  function Show(e: Entry, n: nat, maxOptions: nat, authenticated: bool, truncate: bool): Shown {
    var r := e.record;
    var cut := truncate && |r.text| > TRUNCATE_AT;
    var text := if cut then r.text[..TRUNCATE_AT] + " (open King Louie for the full text)" else r.text;
    var answerable := (authenticated || !NeedsApp(r)) && !(cut && NeedsApp(r));
    var options := if !answerable then [] else if |r.options| <= maxOptions then r.options else r.options[..maxOptions];
    Shown(Item(n, e.token, options, e.caseTitle), r.kind,
          if answerable then text else "Answer this in the app: " + text, answerable)
  }

  function ShowAll(sorted: seq<Entry>, n: nat, maxOptions: nat, authenticated: bool,
      truncate: bool): (shown: seq<Shown>)
    ensures |shown| == |sorted|
  {
    if sorted == [] then []
    else
      [Show(sorted[0], n, maxOptions, authenticated, truncate)]
      + ShowAll(sorted[1..], n + 1, maxOptions, authenticated, truncate)
  }

  lemma {:induction false} ShownAt(sorted: seq<Entry>, n: nat, maxOptions: nat, authenticated: bool, truncate: bool,
      k: nat)
    requires k < |sorted|
    ensures ShowAll(sorted, n, maxOptions, authenticated, truncate)[k]
      == Show(sorted[k], n + k, maxOptions, authenticated, truncate)
    decreases |sorted|
  {
    if k > 0 {
      ShownAt(sorted[1..], n + 1, maxOptions, authenticated, truncate, k - 1);
    }
  }

  function ItemsOf(shown: seq<Shown>): (items: seq<Item>)
    ensures |items| == |shown| && (forall k | 0 <= k < |items| :: items[k] == shown[k].item)
  {
    if shown == [] then [] else [shown[0].item] + ItemsOf(shown[1..])
  }

  function Render(entries: seq<Entry>, maxOptions: nat, authenticated: bool, truncate: bool): seq<Shown> {
    ShowAll(Sort(entries), 1, maxOptions, authenticated, truncate)
  }

  predicate Sorted(es: seq<Entry>) {
    forall i, j | 0 <= i < j < |es| :: Before(es[i], es[j])
  }

  lemma InsertedComeAfter(e: Entry, es: seq<Entry>)
    requires es != [] && Sorted(es) && !Before(e, es[0])
    requires multiset(Insert(e, es[1..])) == multiset(es[1..]) + multiset{e}
    ensures forall x | x in Insert(e, es[1..]) :: Before(es[0], x)
  {
    var rest := Insert(e, es[1..]);
    forall x | x in rest ensures Before(es[0], x) {
      assert x in multiset(rest);
      if x != e {
        assert x in es[1..];
      }
    }
  }

  lemma InsertSorts(e: Entry, es: seq<Entry>)
    requires Sorted(es)
    ensures Sorted(Insert(e, es)) && multiset(Insert(e, es)) == multiset(es) + multiset{e}
    decreases |es|
  {
    if es != [] {
      assert es == [es[0]] + es[1..];
      if !Before(e, es[0]) {
        InsertSorts(e, es[1..]);
        InsertedComeAfter(e, es);
      }
    }
  }

  /** Every entry is shown once, the most urgent first and then the oldest. */
  lemma {:induction false} SortSorts(entries: seq<Entry>)
    ensures Sorted(Sort(entries)) && multiset(Sort(entries)) == multiset(entries)
    decreases |entries|
  {
    if entries != [] {
      SortSorts(entries[1..]);
      InsertSorts(entries[0], Sort(entries[1..]));
      assert entries == [entries[0]] + entries[1..];
    }
  }

  /**
   * An approval, or a question only the app may answer, on a channel that cannot speak for the app or with its text
   * cut.
   */
  predicate OnlyAnnounced(r: Record, authenticated: bool, truncate: bool) {
    NeedsApp(r) && (!authenticated || (truncate && |r.text| > TRUNCATE_AT))
  }

  lemma AnnouncedShowsNothing(e: Entry, n: nat, maxOptions: nat, authenticated: bool, truncate: bool)
    ensures var shown := Show(e, n, maxOptions, authenticated, truncate);
      OnlyAnnounced(e.record, authenticated, truncate) ==> !shown.answerable && shown.item.options == []
  {
  }

  /** One of the lines of a reply names a token and says this. */
  ghost predicate SaidWithToken(batch: Batch, text: string, threaded: bool, f: Found) {
    exists line :: line in ReplyLines(text) && LineToken(line).Some? && LineAnswer(batch, threaded, line) == Some(f)
  }

  lemma WholeGivesText(batch: Batch, text: string, threaded: bool, quoteStarts: (seq<string>, nat) -> bool, f: Found)
    requires IsWhole(batch, text, threaded) && f in ParseReply(batch, text, threaded, quoteStarts).answers
    ensures f.item == 0 && (batch.items[0].options == [] ==> f.answer.Text?)
  {
    assert f.answer == WholeAnswer(batch.items[0], text, quoteStarts).value;
  }

  lemma ReplyGivesText(batch: Batch, text: string, threaded: bool, quoteStarts: (seq<string>, nat) -> bool, f: Found)
    requires f in ParseReply(batch, text, threaded, quoteStarts).answers
    ensures f.item < |batch.items|
    ensures batch.items[f.item].options == [] ==>
      f.answer.Text? && (IsWhole(batch, text, threaded) || SaidWithToken(batch, text, threaded, f))
  {
    if IsWhole(batch, text, threaded) {
      WholeGivesText(batch, text, threaded, quoteStarts, f);
    } else {
      var line := AnswerHasALine(batch, text, threaded, quoteStarts, f);
      LineIsForAnItem(batch, threaded, line);
      if batch.items[f.item].options == [] {
        LineGivesText(batch, threaded, line);
      }
    }
  }

  lemma LineIsForAnItem(batch: Batch, threaded: bool, line: string)
    ensures LineAnswer(batch, threaded, line).Some? ==> LineAnswer(batch, threaded, line).value.item < |batch.items|
  {
  }

  /**
   * No reply ever picks an option of a question that is only announced. Text can reach one, and only in a line that
   * names a token or as the whole of a reply tied to that single item; whoever applies the answers has to turn it
   * away.
   */
  lemma AppQuestionsAreOnlyAnnounced(entries: seq<Entry>, token: string, maxOptions: nat, authenticated: bool,
      truncate: bool, text: string, threaded: bool, quoteStarts: (seq<string>, nat) -> bool, f: Found)
    requires var batch := Batch(token, ItemsOf(Render(entries, maxOptions, authenticated, truncate)));
      f in ParseReply(batch, text, threaded, quoteStarts).answers
    ensures var batch := Batch(token, ItemsOf(Render(entries, maxOptions, authenticated, truncate)));
      && f.item < |Sort(entries)|
      && (OnlyAnnounced(Sort(entries)[f.item].record, authenticated, truncate) ==>
            f.answer.Text? && (IsWhole(batch, text, threaded) || SaidWithToken(batch, text, threaded, f)))
  {
    var batch := Batch(token, ItemsOf(Render(entries, maxOptions, authenticated, truncate)));
    ReplyGivesText(batch, text, threaded, quoteStarts, f);
    ShownAt(Sort(entries), 1, maxOptions, authenticated, truncate, f.item);
    AnnouncedShowsNothing(Sort(entries)[f.item], f.item + 1, maxOptions, authenticated, truncate);
  }

  /**
   * A word sent with the token and number of an item without options reaches it, unless it is another item's option.
   */
  lemma TextReachesExactlyWhen(batch: Batch, i: nat, word: string, threaded: bool,
      quoteStarts: (seq<string>, nat) -> bool)
    requires Rendered(batch) && i < |batch.items| && batch.items[i].options == [] && IsOptionId(word)
    ensures ParseReply(batch, HintText(batch.token, |batch.items|, i + 1, word), threaded, quoteStarts)
        == Reply([Found(i, Text(word))], false)
      <==> (|batch.items| == 1 || i + 1 < 100) && !PickedElsewhere(batch.items, i, word)
  {
    HintAnswer(batch, i, threaded, word);
    OneLineReply(batch, HintText(batch.token, |batch.items|, i + 1, word), threaded, quoteStarts);
    IdIsPlain(word);
    IdIsNoHeader(batch.items[i], word);
  }

  /** A batch with a fresh token is one whose hints work. */
  lemma RenderedBatch(entries: seq<Entry>, token: string, maxOptions: nat, authenticated: bool, truncate: bool)
    requires IsToken(token) && (forall e | e in entries :: e.token != token)
    ensures Rendered(Batch(token, ItemsOf(Render(entries, maxOptions, authenticated, truncate))))
  {
    SortSorts(entries);
    var sorted := Sort(entries);
    var items := ItemsOf(Render(entries, maxOptions, authenticated, truncate));
    forall k | 0 <= k < |items| ensures items[k].n == k + 1 && items[k].token != token {
      assert sorted[k] in multiset(entries);
      ShownAt(sorted, 1, maxOptions, authenticated, truncate, k);
    }
  }

  /** The reply that shows it: an approval only announced, alone in its batch, and "yes" sent with the batch's token. */
  lemma AnnouncedTakesYes(entry: Entry, token: string, maxOptions: nat, truncate: bool, threaded: bool,
      quoteStarts: (seq<string>, nat) -> bool)
    requires entry.record.kind.Approval? && IsToken(token) && entry.token != token
    ensures var batch := Batch(token, ItemsOf(Render([entry], maxOptions, false, truncate)));
      ParseReply(batch, "#" + token + " " + "yes", threaded, quoteStarts) == Reply([Found(0, Text("yes"))], false)
  {
    var batch := Batch(token, ItemsOf(Render([entry], maxOptions, false, truncate)));
    RenderedBatch([entry], token, maxOptions, false, truncate);
    assert Sort([entry]) == [entry];
    ShownAt([entry], 1, maxOptions, false, truncate, 0);
    AnnouncedShowsNothing(entry, 1, maxOptions, false, truncate);
    TextReachesExactlyWhen(batch, 0, "yes", threaded, quoteStarts);
  }

  // ---- The footer ----

  /** The items that the footer asks for an answer to. */
  function Replyable(shown: seq<Shown>): seq<Shown> {
    if shown == [] then []
    else (if shown[0].answerable && !shown[0].kind.Briefing? then [shown[0]] else []) + Replyable(shown[1..])
  }

  function HintOf(token: string, total: nat, s: Shown): string {
    HintText(token, total, s.item.n, if s.item.options != [] then s.item.options[0].id else "<answer>")
  }

  /** The hints that are printed: of the first two of them. */
  function Hints(token: string, shown: seq<Shown>): seq<string> {
    var asked := Replyable(shown);
    if asked == [] then []
    else if |asked| == 1 then [HintOf(token, |shown|, asked[0])]
    else [HintOf(token, |shown|, asked[0]), HintOf(token, |shown|, asked[1])]
  }

  lemma {:induction false} ReplyableIsShown(shown: seq<Shown>, s: Shown)
    requires s in Replyable(shown)
    ensures s in shown && s.answerable && !s.kind.Briefing?
    decreases |shown|
  {
    if s in Replyable(shown[1..]) {
      ReplyableIsShown(shown[1..], s);
    }
  }

  lemma PrintedHintIsOfAnItem(token: string, shown: seq<Shown>, hint: string) returns (i: nat)
    requires hint in Hints(token, shown)
    ensures i < |shown| && shown[i].answerable && !shown[i].kind.Briefing?
    ensures hint == HintOf(token, |shown|, shown[i])
  {
    var asked := Replyable(shown);
    var s := if hint == HintOf(token, |shown|, asked[0]) then asked[0] else asked[1];
    ReplyableIsShown(shown, s);
    i :| 0 <= i < |shown| && shown[i] == s;
  }

  lemma {:induction false} HintOfWorks(token: string, shown: seq<Shown>, i: nat, threaded: bool,
      quoteStarts: (seq<string>, nat) -> bool)
    requires Rendered(Batch(token, ItemsOf(shown))) && i < |shown|
    requires shown[i].item.options != [] && IsOptionId(shown[i].item.options[0].id)
    ensures var options := shown[i].item.options;
      ParseReply(Batch(token, ItemsOf(shown)), HintOf(token, |shown|, shown[i]), threaded, quoteStarts)
        == Reply([Found(i, Pick(options[0].id))], false)
      <==> (|shown| == 1 || i + 1 < 100) && OnlyMatch(options, 0, MatchKey(options[0].id))
  {
    var batch := Batch(token, ItemsOf(shown));
    assert batch.items[i] == shown[i].item && batch.items[i].n == i + 1;
    HintWorksExactlyWhen(batch, i, threaded, quoteStarts);
  }

  /** The options of an item are the first of its entry's. */
  lemma ShowsOwnOptions(e: Entry, n: nat, maxOptions: nat, authenticated: bool, truncate: bool)
    ensures var options := Show(e, n, maxOptions, authenticated, truncate).item.options;
      options != [] ==> e.record.options != [] && options[0] == e.record.options[0]
  {
  }

  lemma {:induction false} ShownOptionIsValid(entries: seq<Entry>, maxOptions: nat, authenticated: bool,
      truncate: bool, i: nat)
    requires forall e | e in entries :: e.record.options != [] ==> IsOptionId(e.record.options[0].id)
    requires i < |Render(entries, maxOptions, authenticated, truncate)|
    ensures var options := Render(entries, maxOptions, authenticated, truncate)[i].item.options;
      options != [] ==> IsOptionId(options[0].id)
  {
    SortSorts(entries);
    var e := Sort(entries)[i];
    assert e in multiset(entries);
    ShownAt(Sort(entries), 1, maxOptions, authenticated, truncate, i);
    ShowsOwnOptions(e, 1 + i, maxOptions, authenticated, truncate);
  }

  /**
   * Every hint under a batch is of one of its items; and where that item shows options, sending the hint back answers
   * it with its first option, if and only if its number has at most two digits, or is left out, and no other option
   * has the same id or caption.
   */
  lemma PrintedHintWorksExactlyWhen(entries: seq<Entry>, token: string, maxOptions: nat, authenticated: bool,
      truncate: bool, hint: string, threaded: bool, quoteStarts: (seq<string>, nat) -> bool) returns (i: nat)
    requires IsToken(token) && (forall e | e in entries :: e.token != token)
    requires forall e | e in entries :: e.record.options != [] ==> IsOptionId(e.record.options[0].id)
    requires hint in Hints(token, Render(entries, maxOptions, authenticated, truncate))
    ensures var shown := Render(entries, maxOptions, authenticated, truncate);
      && i < |shown| && shown[i].answerable && !shown[i].kind.Briefing? && hint == HintOf(token, |shown|, shown[i])
      && var options := shown[i].item.options;
      options != [] ==>
        (ParseReply(Batch(token, ItemsOf(shown)), hint, threaded, quoteStarts)
           == Reply([Found(i, Pick(options[0].id))], false)
         <==> (|shown| == 1 || i + 1 < 100) && OnlyMatch(options, 0, MatchKey(options[0].id)))
  {
    var shown := Render(entries, maxOptions, authenticated, truncate);
    i := PrintedHintIsOfAnItem(token, shown, hint);
    RenderedBatch(entries, token, maxOptions, authenticated, truncate);
    ShownOptionIsValid(entries, maxOptions, authenticated, truncate, i);
    if shown[i].item.options != [] {
      HintOfWorks(token, shown, i, threaded, quoteStarts);
    }
  }

  /** A batch given in the order shown is shown so. */
  lemma {:induction false} SortedStays(es: seq<Entry>)
    requires Sorted(es)
    ensures Sort(es) == es
    decreases |es|
  {
    if es != [] {
      assert Sorted(es[1..]);
      SortedStays(es[1..]);
      assert es == [es[0]] + es[1..];
      if |es| > 1 {
        assert Before(es[0], es[1]);
      }
    }
  }

  /** A question that anyone may answer, with options. */
  predicate Asks(e: Entry) {
    && e.record.kind.Question? && !e.record.appOnly
    && e.record.options != [] && IsOptionId(e.record.options[0].id)
  }

  /** A batch, in the order shown, of briefings and then one question. */
  predicate OneQuestionLast(es: seq<Entry>) {
    es != [] && if |es| == 1 then Asks(es[0]) else es[0].record.kind.Briefing? && OneQuestionLast(es[1..])
  }

  lemma {:induction false} LastAsks(es: seq<Entry>)
    requires OneQuestionLast(es)
    ensures Asks(es[|es| - 1])
    decreases |es|
  {
    if |es| > 1 {
      LastAsks(es[1..]);
    }
  }

  lemma {:induction false} OnlyLastIsAsked(es: seq<Entry>, n: nat, maxOptions: nat, authenticated: bool, truncate: bool)
    requires OneQuestionLast(es)
    ensures var shown := ShowAll(es, n, maxOptions, authenticated, truncate);
      Replyable(shown) == [shown[|es| - 1]]
    decreases |es|
  {
    var shown := ShowAll(es, n, maxOptions, authenticated, truncate);
    if |es| > 1 {
      OnlyLastIsAsked(es[1..], n + 1, maxOptions, authenticated, truncate);
      assert shown[1..] == ShowAll(es[1..], n + 1, maxOptions, authenticated, truncate);
    } else {
      assert shown == [shown[0]] && shown[1..] == [];
    }
  }

  lemma ShowsFirstOption(e: Entry, n: nat, maxOptions: nat, authenticated: bool, truncate: bool)
    requires e.record.kind.Question? && !e.record.appOnly && maxOptions > 0 && e.record.options != []
    ensures var options := Show(e, n, maxOptions, authenticated, truncate).item.options;
      options != [] && options[0] == e.record.options[0]
  {
  }

  lemma {:induction false} LastShown(es: seq<Entry>, maxOptions: nat, authenticated: bool, truncate: bool)
    requires OneQuestionLast(es) && maxOptions > 0
    ensures var last := ShowAll(es, 1, maxOptions, authenticated, truncate)[|es| - 1];
      last.item.options != [] && IsOptionId(last.item.options[0].id)
  {
    LastAsks(es);
    ShownAt(es, 1, maxOptions, authenticated, truncate, |es| - 1);
    ShowsFirstOption(es[|es| - 1], |es|, maxOptions, authenticated, truncate);
  }

  lemma {:induction false} HintOfItem(batch: Batch, shown: seq<Shown>, i: nat)
    requires batch.items == ItemsOf(shown) && i < |shown| && batch.items[i].n == i + 1
    requires batch.items[i].options != []
    ensures HintOf(batch.token, |shown|, shown[i])
      == HintText(batch.token, |batch.items|, i + 1, batch.items[i].options[0].id)
  {
    assert batch.items[i] == shown[i].item;
  }

  lemma {:induction false} HintOfFails(batch: Batch, shown: seq<Shown>, i: nat, threaded: bool,
      quoteStarts: (seq<string>, nat) -> bool)
    requires batch.items == ItemsOf(shown) && Rendered(batch) && 99 <= i < |batch.items|
    requires batch.items[i].options != [] && IsOptionId(batch.items[i].options[0].id)
    ensures ParseReply(batch, HintOf(batch.token, |shown|, shown[i]), threaded, quoteStarts) == Reply([], true)
  {
    HintOfItem(batch, shown, i);
    HundredthItemFails(batch, i, threaded, quoteStarts);
  }

  lemma {:induction false} OnlyHint(token: string, shown: seq<Shown>, i: nat)
    requires i < |shown| && Replyable(shown) == [shown[i]]
    ensures Hints(token, shown) == [HintOf(token, |shown|, shown[i])]
  {
  }

  lemma {:induction false} OnlyHintFails(batch: Batch, shown: seq<Shown>, threaded: bool,
      quoteStarts: (seq<string>, nat) -> bool) returns (hint: string)
    requires batch.items == ItemsOf(shown) && Rendered(batch) && |shown| >= 100
    requires Replyable(shown) == [shown[|shown| - 1]]
    requires shown[|shown| - 1].item.options != [] && IsOptionId(shown[|shown| - 1].item.options[0].id)
    ensures Hints(batch.token, shown) == [hint]
    ensures ParseReply(batch, hint, threaded, quoteStarts) == Reply([], true)
  {
    var i: nat := |shown| - 1;
    hint := HintOf(batch.token, |shown|, shown[i]);
    OnlyHint(batch.token, shown, i);
    assert batch.items[i] == shown[i].item;
    HintOfFails(batch, shown, i, threaded, quoteStarts);
  }

  lemma {:induction false} LastOfBatch(entries: seq<Entry>, shown: seq<Shown>, maxOptions: nat, authenticated: bool,
      truncate: bool)
    requires OneQuestionLast(Sort(entries)) && maxOptions > 0
    requires shown == Render(entries, maxOptions, authenticated, truncate)
    ensures |shown| == |Sort(entries)| > 0 && Replyable(shown) == [shown[|shown| - 1]]
    ensures shown[|shown| - 1].item.options != [] && IsOptionId(shown[|shown| - 1].item.options[0].id)
  {
    OnlyLastIsAsked(Sort(entries), 1, maxOptions, authenticated, truncate);
    LastShown(Sort(entries), maxOptions, authenticated, truncate);
  }

  /**
   * The batch that shows it: ninety-nine briefings or more, and behind them one question. The hint under it is that
   * question's, with its number, and sent back it answers nothing.
   */
  lemma {:induction false} HundredthHintFails(entries: seq<Entry>, shown: seq<Shown>, token: string, maxOptions: nat,
      authenticated: bool, truncate: bool, threaded: bool, quoteStarts: (seq<string>, nat) -> bool)
      returns (hint: string)
    requires |Sort(entries)| >= 100 && OneQuestionLast(Sort(entries)) && maxOptions > 0
    requires IsToken(token) && (forall e | e in entries :: e.token != token)
    requires shown == Render(entries, maxOptions, authenticated, truncate)
    ensures Hints(token, shown) == [hint]
    ensures ParseReply(Batch(token, ItemsOf(shown)), hint, threaded, quoteStarts) == Reply([], true)
  {
    LastOfBatch(entries, shown, maxOptions, authenticated, truncate);
    RenderedBatch(entries, token, maxOptions, authenticated, truncate);
    hint := OnlyHintFails(Batch(token, ItemsOf(shown)), shown, threaded, quoteStarts);
  }

  // ---- What a batch shows ----

  /** Of two entries the more urgent comes first, and of two as urgent the older. */
  lemma BeforeSays(a: Entry, b: Entry)
    ensures var u, w := a.record.urgency, b.record.urgency;
            Before(a, b) <==>
              || (u == High && w != High) || (u == Normal && w == Low)
              || (u == w && a.record.createdAt <= b.record.createdAt)
  {
  }

  /**
   * What needs the app is only announced where replies are not the owner's own, or where its text would be cut. What is
   * announced says so and shows no options; anything else shows the first options that there is room for.
   */
  lemma ShowSays(e: Entry, n: nat, maxOptions: nat, authenticated: bool, truncate: bool)
    ensures var s, r := Show(e, n, maxOptions, authenticated, truncate), e.record;
            var cut := truncate && |r.text| > 280;
            var text := if cut then r.text[..280] + " (open King Louie for the full text)" else r.text;
            && s.item.n == n && s.item.token == e.token && s.item.caseTitle == e.caseTitle && s.kind == r.kind
            && (s.answerable <==> !(r.kind.Approval? || r.appOnly) || (authenticated && !cut))
            && s.text == (if s.answerable then text else "Answer this in the app: " + text)
            && (!s.answerable ==> s.item.options == [])
            && (s.answerable ==> s.item.options <= r.options
                                 && |s.item.options| == if |r.options| <= maxOptions then |r.options| else maxOptions)
  {
  }

  /** The footer has a hint for the first two of the items that it asks for an answer to, or for the only one. */
  lemma HintsSay(token: string, shown: seq<Shown>, k: nat)
    ensures var asked := Replyable(shown);
            && |Hints(token, shown)| == (if |asked| <= 2 then |asked| else 2)
            && (k < |Hints(token, shown)| ==> Hints(token, shown)[k] == HintOf(token, |shown|, asked[k]))
  {
  }

  /** It asks for an answer to every shown item that can be answered and is no briefing, in their order. */
  lemma {:induction false} AskedSays(shown: seq<Shown>, s: Shown)
    ensures s in Replyable(shown) <==> s in shown && s.answerable && !s.kind.Briefing?
    decreases |shown|
  {
    if shown != [] {
      AskedSays(shown[1..], s);
      assert shown == [shown[0]] + shown[1..];
    }
  }
}
