/** What a reply can and cannot answer, and that the printed reply hint works. */
module ContactReplies {
  import opened Basics
  import opened Jsonl
  import opened ContactFormat

  // ---- Options ----

  /** Option k matches, by id or by caption, and no other one does. */
  predicate OnlyMatch(options: seq<Choice>, k: nat, key: string) {
    && k < |options| && Matches(options[k], key)
    && (forall j | 0 <= j < |options| && j != k :: !Matches(options[j], key))
  }

  lemma {:induction false} NoHits(options: seq<Choice>, key: string)
    ensures Hits(options, key) == [] <==> (forall j | 0 <= j < |options| :: !Matches(options[j], key))
    decreases |options|
  {
    if options != [] {
      NoHits(options[1..], key);
      if Hits(options, key) == [] {
        forall j | 0 <= j < |options| ensures !Matches(options[j], key) {
          if j > 0 {
            assert !Matches(options[1..][j - 1], key);
          }
        }
      }
    }
  }

  lemma {:induction false} OneHit(options: seq<Choice>, key: string, k: nat)
    requires OnlyMatch(options, k, key)
    ensures Hits(options, key) == [options[k]]
    decreases |options|
  {
    if k == 0 {
      NoHits(options[1..], key);
    } else {
      assert !Matches(options[0], key) && OnlyMatch(options[1..], k - 1, key);
      OneHit(options[1..], key, k - 1);
    }
  }

  lemma {:induction false} HitIsOnly(options: seq<Choice>, key: string) returns (k: nat)
    requires |Hits(options, key)| == 1
    ensures OnlyMatch(options, k, key)
    decreases |options|
  {
    if Matches(options[0], key) {
      NoHits(options[1..], key);
      k := 0;
      forall j | 0 < j < |options| ensures !Matches(options[j], key) {
        assert !Matches(options[1..][j - 1], key);
      }
    } else {
      var i := HitIsOnly(options[1..], key);
      k := i + 1;
      forall j | 0 <= j < |options| && j != k ensures !Matches(options[j], key) {
        if j > 0 {
          assert !Matches(options[1..][j - 1], key);
        }
      }
    }
  }

  /** An option is chosen exactly when the reply's key is not empty and exactly one option matches it. */
  lemma PicksExactlyTheOnlyMatch(options: seq<Choice>, rest: string)
    ensures var key := MatchKey(Trim(rest));
      OptionOrText(options, rest).Pick? <==> key != [] && exists k: nat :: OnlyMatch(options, k, key)
    ensures forall k: nat | OnlyMatch(options, k, MatchKey(Trim(rest))) && MatchKey(Trim(rest)) != [] ::
      OptionOrText(options, rest) == Pick(options[k].id)
  {
    var key := MatchKey(Trim(rest));
    if OptionOrText(options, rest).Pick? {
      var k := HitIsOnly(options, key);
      assert OnlyMatch(options, k, key);
    }
    forall k: nat | OnlyMatch(options, k, key) ensures Hits(options, key) == [options[k]] {
      OneHit(options, key, k);
    }
  }

  // ---- What a line may answer ----

  /**
   * In a batch of several items, a line without a token only ever picks an option, and only in a reply tied to the
   * batch.
   */
  lemma TokenlessLinesOnlyPick(batch: Batch, threaded: bool, line: string)
    requires LineToken(line).None? && LineAnswer(batch, threaded, line).Some?
    ensures threaded && |batch.items| != 1
    ensures LineAnswer(batch, threaded, line).value.answer.Pick?
  {
  }

  /** The answer is this text, which is no copy of the question and no option of another item. */
  predicate FreeTextFor(items: seq<Item>, f: Found, rest: string) {
    && f.item < |items| && f.answer == OptionOrText(items[f.item].options, rest)
    && !PickedElsewhere(items, f.item, rest) && !IsItemHeader(items[f.item], rest)
  }

  /**
   * A text answer names its item by token or, in a single-item batch, is the only item's; and it is no other item's
   * option.
   */
  lemma TextIsForThisItem(batch: Batch, threaded: bool, line: string)
    requires LineAnswer(batch, threaded, line).Some? && LineAnswer(batch, threaded, line).value.answer.Text?
    ensures LineToken(line).Some?
    ensures exists rest :: FreeTextFor(batch.items, LineAnswer(batch, threaded, line).value, rest)
  {
    var (written, rest) := LineToken(line).value;
    var items, f := batch.items, LineAnswer(batch, threaded, line).value;
    var numbered := Numbered(rest);
    if ByToken(items, Upper(written)) == |items| && numbered.Some? && ByNumber(items, numbered.value.0) < |items| {
      assert FreeTextFor(items, f, numbered.value.1);
    } else {
      assert FreeTextFor(items, f, rest);
    }
  }

  lemma {:induction false} FoundHasALine(answer: string -> Option<Found>, lines: seq<string>, f: Found)
    requires f in FoundBy(answer, lines)
    ensures exists line :: line in lines && answer(line) == Some(f)
    decreases |lines|
  {
    if answer(lines[0]) == Some(f) {
      assert lines[0] in lines;
    } else {
      FoundHasALine(answer, lines[1..], f);
      var line :| line in lines[1..] && answer(line) == Some(f);
      assert line in lines;
    }
  }

  lemma {:induction false} StandingIsFound(found: seq<Found>, n: nat, f: Found)
    requires n <= |found| && f in Standing(found, n)
    ensures exists k :: 0 <= k < n && found[k] == f && Stands(found, k)
    decreases n
  {
    if f in Standing(found, n - 1) {
      StandingIsFound(found, n - 1, f);
    }
  }

  /** What a reply answers was said by one of its lines, unless it is read as a whole. */
  lemma AnswerHasALine(batch: Batch, text: string, threaded: bool, quoteStarts: (seq<string>, nat) -> bool, f: Found)
      returns (line: string)
    requires !IsWhole(batch, text, threaded) && f in ParseReply(batch, text, threaded, quoteStarts).answers
    ensures line in ReplyLines(text) && LineAnswer(batch, threaded, line) == Some(f)
  {
    var lines := ReplyLines(text);
    var found := FoundIn(batch, threaded, lines);
    StandingIsFound(found, |found|, f);
    FoundHasALine(Reader(batch, threaded), lines, f);
    line :| line in lines && Reader(batch, threaded)(line) == Some(f);
  }

  /** No free text reaches an item of a batch of several unless its line named a token. */
  lemma FreeTextNeedsAToken(batch: Batch, text: string, threaded: bool,
      quoteStarts: (seq<string>, nat) -> bool, f: Found)
    requires |batch.items| != 1 && f in ParseReply(batch, text, threaded, quoteStarts).answers && f.answer.Text?
    ensures exists line ::
          line in ReplyLines(text) && LineAnswer(batch, threaded, line) == Some(f) && LineToken(line).Some?
  {
    var line := AnswerHasALine(batch, text, threaded, quoteStarts, f);
    TextIsForThisItem(batch, threaded, line);
  }

  // ---- Conflicting answers ----

  predicate Distinct(answers: seq<Found>) {
    forall i, j | 0 <= i < j < |answers| :: answers[i].item != answers[j].item
  }

  lemma {:induction false} StandingAreDistinct(found: seq<Found>, n: nat)
    requires n <= |found|
    ensures Distinct(Standing(found, n))
    decreases n
  {
    if n > 0 {
      StandingAreDistinct(found, n - 1);
      if Stands(found, n - 1) {
        var earlier := Standing(found, n - 1);
        forall i | 0 <= i < |earlier| ensures earlier[i].item != found[n - 1].item {
          StandingIsFound(found, n - 1, earlier[i]);
        }
      }
    }
  }

  lemma {:induction false} StandingHolds(found: seq<Found>, n: nat, k: nat)
    requires k < n <= |found| && Stands(found, k)
    ensures found[k] in Standing(found, n)
    decreases n
  {
    if k < n - 1 {
      StandingHolds(found, n - 1, k);
    }
  }

  predicate Agree(found: seq<Found>, item: nat) {
    forall i, j {:trigger found[i], found[j]} | 0 <= i < |found| && 0 <= j < |found| ::
      found[i].item == item && found[j].item == item ==> found[i].answer == found[j].answer
  }

  predicate Mentioned(found: seq<Found>, item: nat) {
    exists k :: 0 <= k < |found| && found[k].item == item
  }

  /** An item is answered exactly when something was found for it and everything found for it agrees; and then once. */
  lemma AnsweredExactlyWhenAgreed(found: seq<Found>, item: nat)
    ensures (exists f :: f in Standing(found, |found|) && f.item == item) <==>
          Mentioned(found, item) && Agree(found, item)
    ensures Distinct(Standing(found, |found|))
  {
    StandingAreDistinct(found, |found|);
    if exists f :: f in Standing(found, |found|) && f.item == item {
      var f :| f in Standing(found, |found|) && f.item == item;
      StandingIsFound(found, |found|, f);
    } else if Mentioned(found, item) {
      var k := FirstFor(found, item);
      if Stands(found, k) {
        StandingHolds(found, |found|, k);
      }
    }
  }

  lemma FirstFor(found: seq<Found>, item: nat) returns (k: nat)
    requires Mentioned(found, item)
    ensures k < |found| && found[k].item == item && (forall j | 0 <= j < k :: found[j].item != item)
  {
    k := 0;
    while found[k].item != item
      invariant k < |found| && (forall j | 0 <= j < k :: found[j].item != item)
      decreases |found| - k
    {
      k := k + 1;
    }
  }

  // ---- The loop that drops conflicts ----

  function Without(answers: seq<Found>, item: nat): seq<Found> {
    if answers == [] then [] else (if answers[0].item == item then [] else [answers[0]]) + Without(answers[1..], item)
  }

  lemma {:induction false} WithoutAdds(a: seq<Found>, f: Found, item: nat)
    ensures Without(a + [f], item) == Without(a, item) + (if f.item == item then [] else [f])
    decreases |a|
  {
    if a == [] {
      assert a + [f] == [f] && [f][1..] == [];
    } else {
      var more := a + [f];
      assert more[0] == a[0] && more[1..] == a[1..] + [f];
      WithoutAdds(a[1..], f, item);
      var kept, tail := if a[0].item == item then [] else [a[0]], if f.item == item then [] else [f];
      assert kept + (Without(a[1..], item) + tail) == kept + Without(a[1..], item) + tail;
    }
  }

  lemma {:induction false} WithoutNone(answers: seq<Found>, item: nat)
    requires forall k | 0 <= k < |answers| :: answers[k].item != item
    ensures Without(answers, item) == answers
    decreases |answers|
  {
    if answers != [] {
      WithoutNone(answers[1..], item);
    }
  }

  lemma {:induction false} SpliceIsWithout(answers: seq<Found>, k: nat)
    requires Distinct(answers) && k < |answers|
    ensures answers[..k] + answers[k + 1..] == Without(answers, answers[k].item)
    decreases k
  {
    if k == 0 {
      WithoutNone(answers[1..], answers[0].item);
    } else {
      SpliceIsWithout(answers[1..], k - 1);
      assert answers[1..][..k - 1] == answers[1..k] && answers[1..][k..] == answers[k + 1..];
      assert answers[..k] == [answers[0]] + answers[1..k];
    }
  }

  predicate Differs(p: seq<Found>, f: Found) {
    exists k :: 0 <= k < |p| && p[k].item == f.item && p[k].answer != f.answer
  }

  /** One more answer leaves standing what stood, unless it is for the same item and differs. */
  lemma StandsGrows(p: seq<Found>, f: Found, k: nat)
    requires k < |p|
    ensures Stands(p + [f], k) <==> Stands(p, k) && (p[k].item == f.item ==> p[k].answer == f.answer)
  {
    var q := p + [f];
    assert q[|p|] == f;
    assert forall j | 0 <= j < |p| :: q[j] == p[j];
  }

  lemma {:induction false} StandingSame(p: seq<Found>, f: Found, n: nat)
    requires n <= |p| && !Differs(p, f)
    ensures Standing(p + [f], n) == Standing(p, n)
    decreases n
  {
    if n > 0 {
      StandingSame(p, f, n - 1);
      StandsGrows(p, f, n - 1);
    }
  }

  /** A different answer takes the item's standing one away. */
  lemma {:induction false} StandingLoses(p: seq<Found>, f: Found, n: nat)
    requires n <= |p| && Differs(p, f)
    ensures Standing(p + [f], n) == Without(Standing(p, n), f.item)
    decreases n
  {
    if n > 0 {
      StandingLoses(p, f, n - 1);
      StandsGrows(p, f, n - 1);
      if Stands(p, n - 1) {
        WithoutAdds(Standing(p, n - 1), p[n - 1], f.item);
        assert (p + [f])[n - 1] == p[n - 1];
        StandsAlone(p, f, n - 1);
        assert Stands(p + [f], n - 1) <==> p[n - 1].item != f.item;
      } else {
        assert Standing(p, n) == Standing(p, n - 1) && Standing(p + [f], n) == Standing(p + [f], n - 1);
      }
    }
  }

  lemma StandsAlone(p: seq<Found>, f: Found, k: nat)
    requires k < |p| && Stands(p, k) && Differs(p, f)
    ensures p[k].item == f.item ==> p[k].answer != f.answer
  {
  }

  /** The items that had two different answers. */
  predicate Conflicted(found: seq<Found>, item: nat) {
    Mentioned(found, item) && !Agree(found, item)
  }

  lemma ConflictGrows(p: seq<Found>, f: Found, item: nat)
    ensures Conflicted(p + [f], item) <==> Conflicted(p, item) || (item == f.item && Differs(p, f))
  {
    var q := p + [f];
    assert q[|p|] == f;
    assert forall j | 0 <= j < |p| :: q[j] == p[j];
    if Conflicted(q, item) && !Conflicted(p, item) {
      assert Agree(p, item);
    }
    if Conflicted(p, item) {
      assert Mentioned(q, item) && !Agree(q, item);
    }
    if item == f.item && Differs(p, f) {
      assert Mentioned(q, item) && !Agree(q, item);
    }
  }

  lemma NewestStands(p: seq<Found>, f: Found)
    ensures Stands(p + [f], |p|) <==> !Mentioned(p, f.item)
  {
    var q := p + [f];
    assert q[|p|] == f && (forall j | 0 <= j < |p| :: q[j] == p[j]);
  }

  /** What is standing after one more answer. */
  lemma StandingStep(p: seq<Found>, f: Found)
    ensures var was, now := Standing(p, |p|), Standing(p + [f], |p| + 1);
      if !Mentioned(p, f.item) then now == was + [f]
      else if Differs(p, f) then now == Without(was, f.item)
      else now == was
  {
    NewestStands(p, f);
    assert (p + [f])[|p|] == f;
    if Differs(p, f) {
      StandingLoses(p, f, |p|);
      assert Mentioned(p, f.item);
    } else {
      StandingSame(p, f, |p|);
    }
  }

  method FindItem(answers: seq<Found>, item: nat) returns (prior: nat)
    ensures prior <= |answers| && (forall k | 0 <= k < prior :: answers[k].item != item)
    ensures prior < |answers| ==> answers[prior].item == item
  {
    prior := 0;
    while prior < |answers| && answers[prior].item != item
      invariant prior <= |answers| && (forall k | 0 <= k < prior :: answers[k].item != item)
    {
      prior := prior + 1;
    }
  }

  /** Where an item of the found answers stands now. */
  lemma PriorTells(p: seq<Found>, f: Found, prior: nat)
    requires prior <= |Standing(p, |p|)| && !Conflicted(p, f.item)
    requires forall k | 0 <= k < prior :: Standing(p, |p|)[k].item != f.item
    requires prior < |Standing(p, |p|)| ==> Standing(p, |p|)[prior].item == f.item
    ensures prior == |Standing(p, |p|)| <==> !Mentioned(p, f.item)
    ensures prior < |Standing(p, |p|)| ==> (Differs(p, f) <==> Standing(p, |p|)[prior].answer != f.answer)
  {
    AnsweredExactlyWhenAgreed(p, f.item);
    if prior < |Standing(p, |p|)| {
      StandingIsFound(p, |p|, Standing(p, |p|)[prior]);
    } else {
      assert forall g | g in Standing(p, |p|) :: g.item != f.item;
    }
  }

  /** One turn of the loop: an answer found after those of p. */
  method ResolveOne(ghost p: seq<Found>, f: Found, before: seq<Found>, dropped: set<nat>)
    returns (answers: seq<Found>, conflicted: set<nat>)
    requires before == Standing(p, |p|) && (forall item :: item in dropped <==> Conflicted(p, item))
    ensures answers == Standing(p + [f], |p| + 1)
    ensures forall item :: item in conflicted <==> Conflicted(p + [f], item)
  {
    answers, conflicted := before, dropped;
    StandingStep(p, f);
    forall item ensures Conflicted(p + [f], item) <==> Conflicted(p, item) || (item == f.item && Differs(p, f)) {
      ConflictGrows(p, f, item);
    }
    if f.item in dropped {
      ConflictStays(p, f);
    } else {
      var prior := FindItem(answers, f.item);
      PriorTells(p, f, prior);
      if prior == |answers| {
        answers := answers + [f];
      } else if answers[prior].answer != f.answer {
        StandingAreDistinct(p, |p|);
        SpliceIsWithout(answers, prior);
        answers := answers[..prior] + answers[prior + 1..];
        conflicted := conflicted + {f.item};
      }
    }
  }

  /** The loop over everything found: two different answers to one item drop it for good. */
  method Resolve(found: seq<Found>) returns (answers: seq<Found>)
    ensures answers == Standing(found, |found|)
  {
    answers := [];
    var conflicted: set<nat> := {};
    var i := 0;
    while i < |found|
      invariant 0 <= i <= |found|
      invariant answers == Standing(found[..i], i)
      invariant forall item :: item in conflicted <==> Conflicted(found[..i], item)
    {
      assert found[..i + 1] == found[..i] + [found[i]];
      answers, conflicted := ResolveOne(found[..i], found[i], answers, conflicted);
      i := i + 1;
    }
    assert found[..i] == found;
  }

  /** An item dropped once stays dropped. */
  lemma ConflictStays(p: seq<Found>, f: Found)
    requires Conflicted(p, f.item)
    ensures Standing(p + [f], |p| + 1) == Standing(p, |p|)
  {
    StandingStep(p, f);
    AnsweredExactlyWhenAgreed(p, f.item);
    assert forall k | 0 <= k < |Standing(p, |p|)| :: Standing(p, |p|)[k] in Standing(p, |p|);
    WithoutNone(Standing(p, |p|), f.item);
  }

  /** The loop over the lines of a reply, and then over what they say. */
  method Parse(batch: Batch, text: string, threaded: bool, quoteStarts: (seq<string>, nat) -> bool)
    returns (reply: Reply)
    ensures reply == ParseReply(batch, text, threaded, quoteStarts)
  {
    var lines := ReplyLines(text);
    if threaded && |batch.items| == 1 {
      var named := AnyNamesToken(batch, lines);
      if !named {
        var answer := SingleThreadAnswer(batch.items[0], text, quoteStarts);
        return if answer.Some? then Reply([Found(0, answer.value)], false) else Reply([], true);
      }
    }
    var found := Collect(Reader(batch, threaded), lines);
    var answers := Resolve(found);
    reply := Reply(answers, answers == []);
  }

  /** One answer of all that is left when the quoted history, the signature and copies of the question are gone. */
  method SingleThreadAnswer(item: Item, text: string, quoteStarts: (seq<string>, nat) -> bool)
    returns (answer: Option<Answer>)
    ensures answer == WholeAnswer(item, text, quoteStarts)
  {
    var lines := StripQuoted(DropReturns(Split(text)), quoteStarts);
    lines := DropSignature(lines);
    var body := Filter(item, lines);
    answer := if body == [] then None else Some(OptionOrText(item.options, Joined(body)));
  }

  method DropSignature(lines: seq<string>) returns (rest: seq<string>)
    ensures rest == DropEnd(lines)
  {
    rest := lines;
    while rest != [] && (rest[|rest| - 1] == [] || IsSentFrom(rest[|rest| - 1]))
      invariant DropEnd(lines) == DropEnd(rest)
    {
      rest := rest[..|rest| - 1];
    }
  }

  function Said(item: Item, line: string): seq<string> {
    if SaysSomething(item, line) then [line] else []
  }

  lemma SaidThenTheRest(body: seq<string>, item: Item, lines: seq<string>, i: nat)
    requires i < |lines|
    ensures body + Body(item, lines[i..]) == body + Said(item, lines[i]) + Body(item, lines[i + 1..])
  {
    assert lines[i..][1..] == lines[i + 1..];
  }

  method Filter(item: Item, lines: seq<string>) returns (body: seq<string>)
    ensures body == Body(item, lines)
  {
    body := [];
    var i := 0;
    while i < |lines|
      invariant 0 <= i <= |lines|
      invariant Body(item, lines) == body + Body(item, lines[i..])
    {
      SaidThenTheRest(body, item, lines, i);
      body := body + Said(item, lines[i]);
      i := i + 1;
    }
  }

  lemma OwnThenTheRest(out: seq<string>, lines: seq<string>, i: nat, quoteStarts: (seq<string>, nat) -> bool)
    requires i < |lines| && !quoteStarts(lines, i)
    ensures out + Unquoted(lines, i, quoteStarts) == out + Own(lines[i]) + Unquoted(lines, i + 1, quoteStarts)
  {
  }

  method StripQuoted(lines: seq<string>, quoteStarts: (seq<string>, nat) -> bool) returns (out: seq<string>)
    ensures out == Unquoted(lines, 0, quoteStarts)
  {
    out := [];
    var i := 0;
    while i < |lines| && !quoteStarts(lines, i)
      invariant 0 <= i <= |lines|
      invariant Unquoted(lines, 0, quoteStarts) == out + Unquoted(lines, i, quoteStarts)
    {
      OwnThenTheRest(out, lines, i, quoteStarts);
      out := out + Own(lines[i]);
      i := i + 1;
    }
  }

  method Collect(answer: string -> Option<Found>, lines: seq<string>) returns (found: seq<Found>)
    ensures found == FoundBy(answer, lines)
  {
    found := [];
    var i := 0;
    while i < |lines|
      invariant 0 <= i <= |lines|
      invariant FoundBy(answer, lines) == found + FoundBy(answer, lines[i..])
    {
      assert lines[i..][1..] == lines[i + 1..];
      var said := answer(lines[i]);
      if said.Some? {
        found := found + [said.value];
      }
      i := i + 1;
    }
  }

  method AnyNamesToken(batch: Batch, lines: seq<string>) returns (named: bool)
    ensures named <==> exists line :: line in lines && NamesToken(batch, line)
  {
    var i := 0;
    while i < |lines|
      invariant 0 <= i <= |lines|
      invariant forall k :: 0 <= k < i ==> !NamesToken(batch, lines[k])
    {
      if NamesToken(batch, lines[i]) {
        return true;
      }
      i := i + 1;
    }
    named := false;
  }
}
