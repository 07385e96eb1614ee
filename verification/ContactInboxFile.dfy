/** The inbox file of src/cases/contact-state.js and the loop of src/cases/contact.js that drains it. */
module ContactInboxFiles {
  import opened Basics
  import opened Jsonl
  import opened ContactInbox
  import opened ContactInboxRuns

  datatype Counts = Counts(applied: nat, kept: nat, refused: nat, dropped: nat)

  /** The lines a drain writes back. */
  function KeptOf(lines: seq<Line>, outcomes: seq<Outcome>): seq<Line>
    requires |outcomes| == |lines|
  {
    if lines == [] then []
    else
      (match Judge(lines[0], outcomes[0]) case Kept(line) => [line] case _ => []) + KeptOf(lines[1..], outcomes[1..])
  }

  function Count(counts: Counts, fate: Fate): Counts {
    match fate
    case WasApplied => counts.(applied := counts.applied + 1)
    case WasRefused => counts.(refused := counts.refused + 1)
    case WasDropped => counts.(dropped := counts.dropped + 1)
    case Kept(_) => counts.(kept := counts.kept + 1)
  }

  function CountsOf(counts: Counts, lines: seq<Line>, outcomes: seq<Outcome>): Counts
    requires |outcomes| == |lines|
    decreases lines
  {
    if lines == [] then counts else CountsOf(Count(counts, Judge(lines[0], outcomes[0])), lines[1..], outcomes[1..])
  }

  /** Every line of the snapshot has exactly one fate, and the kept ones are the ones written back. */
  lemma {:induction false} EveryLineHasOneFate(counts: Counts, lines: seq<Line>, outcomes: seq<Outcome>)
    requires |outcomes| == |lines|
    ensures var after := CountsOf(counts, lines, outcomes);
      after.applied + after.refused + after.dropped + after.kept
        == counts.applied + counts.refused + counts.dropped + counts.kept + |lines|
    ensures CountsOf(counts, lines, outcomes).kept == counts.kept + |KeptOf(lines, outcomes)|
    decreases |lines|
  {
    if lines != [] {
      EveryLineHasOneFate(Count(counts, Judge(lines[0], outcomes[0])), lines[1..], outcomes[1..]);
    }
  }

  /** What becomes of each line. */
  function Fates(lines: seq<Line>, outcomes: seq<Outcome>): seq<Fate>
    requires |outcomes| == |lines|
  {
    if lines == [] then [] else [Judge(lines[0], outcomes[0])] + Fates(lines[1..], outcomes[1..])
  }

  /** Each line is counted under its own fate. */
  lemma {:induction false} CountsSay(counts: Counts, lines: seq<Line>, outcomes: seq<Outcome>)
    requires |outcomes| == |lines|
    ensures var after, fates := CountsOf(counts, lines, outcomes), multiset(Fates(lines, outcomes));
            && after.applied == counts.applied + fates[WasApplied]
            && after.refused == counts.refused + fates[WasRefused]
            && after.dropped == counts.dropped + fates[WasDropped]
    decreases |lines|
  {
    if lines != [] {
      CountsSay(Count(counts, Judge(lines[0], outcomes[0])), lines[1..], outcomes[1..]);
    }
  }

  function Nexts(outcomes: seq<Outcome>): seq<Event> {
    if outcomes == [] then [] else [Next(outcomes[0])] + Nexts(outcomes[1..])
  }

  function JudgeAll(d: Drain, outcomes: seq<Outcome>): Drain
    requires d.at + |outcomes| == |d.lines|
    decreases outcomes
  {
    if outcomes == [] then d else JudgeAll(JudgeNext(d, outcomes[0]), outcomes[1..])
  }

  lemma {:induction false} JudgeAllKeeps(d: Drain, outcomes: seq<Outcome>)
    requires d.at + |outcomes| == |d.lines|
    ensures JudgeAll(d, outcomes).keep == d.keep + KeptOf(d.lines[d.at..], outcomes)
    decreases |outcomes|
  {
    if outcomes != [] {
      assert d.lines[d.at..][0] == d.lines[d.at] && d.lines[d.at..][1..] == d.lines[d.at + 1..];
      JudgeAllKeeps(JudgeNext(d, outcomes[0]), outcomes[1..]);
    }
  }

  lemma {:induction false} StepsJudgeAll(encode: Line -> string, parse: string -> Option<Line>, s: State,
      outcomes: seq<Outcome>)
    requires s.drain.Some? && s.drain.value.at + |outcomes| == |s.drain.value.lines|
    ensures var after := Run(encode, parse, s, Nexts(outcomes));
      after.text == s.text && after.drain == Some(JudgeAll(s.drain.value, outcomes))
    decreases |outcomes|
  {
    if outcomes != [] {
      assert Nexts(outcomes)[1..] == Nexts(outcomes[1..]);
      StepsJudgeAll(encode, parse, Step(encode, parse, s, Next(outcomes[0])), outcomes[1..]);
    }
  }

  /** Judging the lines one by one, as the steps of a run do, keeps the lines of the loop. */
  lemma StepsKeepTheSame(encode: Line -> string, parse: string -> Option<Line>, s: State, outcomes: seq<Outcome>)
    requires s.drain.Some? && s.drain.value.at + |outcomes| == |s.drain.value.lines|
    ensures var after := Run(encode, parse, s, Nexts(outcomes));
      && after.text == s.text && after.drain.Some?
      && after.drain.value.keep == s.drain.value.keep + KeptOf(s.drain.value.lines[s.drain.value.at..], outcomes)
  {
    StepsJudgeAll(encode, parse, s, outcomes);
    JudgeAllKeeps(s.drain.value, outcomes);
  }

  lemma ParsedNext(parse: string -> Option<Line>, raws: seq<string>, i: nat, lines: seq<Line>)
    requires i < |raws|
    ensures var more := if raws[i] != [] && parse(raws[i]).Some? then lines + [parse(raws[i]).value] else lines;
      lines + Parsed(parse, raws[i..]) == more + Parsed(parse, raws[i + 1..])
  {
    assert raws[i..][1..] == raws[i + 1..];
    var rest := Parsed(parse, raws[i + 1..]);
    assert [] + rest == rest;
  }

  class ContactInboxFile {
    var content: Option<string>
    const encode: Line -> string
    const parse: string -> Option<Line>

    ghost function Text(): string
      reads this
    {
      if content.Some? then content.value else []
    }

    constructor (content: Option<string>, encode: Line -> string, parse: string -> Option<Line>)
      ensures this.content == content && this.encode == encode && this.parse == parse
    {
      this.content, this.encode, this.parse := content, encode, parse;
    }

    method AppendInbox(v: Line)
      modifies this
      ensures Text() == Append(encode, old(Text()), v)
    {
      var text := if content.Some? then content.value else [];
      content := Some(text + encode(v) + "\n");
    }

    method InboxSnapshot() returns (lines: seq<Line>, size: nat)
      ensures lines == Inbox(parse, Text()) && size == |Text()|
    {
      var text := if content.Some? then content.value else [];
      lines := ParseInbox(Split(text));
      size := |text|;
    }

    method ParseInbox(raws: seq<string>) returns (lines: seq<Line>)
      ensures lines == Parsed(parse, raws)
    {
      lines := [];
      var i := 0;
      while i < |raws|
        invariant 0 <= i <= |raws|
        invariant Parsed(parse, raws) == lines + Parsed(parse, raws[i..])
      {
        ParsedNext(parse, raws, i, lines);
        if raws[i] != [] {
          var parsed := parse(raws[i]);
          if parsed.Some? {
            lines := lines + [parsed.value];
          }
        }
        i := i + 1;
      }
    }

    /** An empty result leaves no file. */
    method RewriteInbox(keep: seq<Line>, since: nat)
      modifies this
      ensures Text() == Rewrite(encode, old(Text()), keep, since)
      ensures content.None? <==> Text() == []
    {
      var text := if content.Some? then content.value else [];
      var written := [];
      var i := 0;
      while i < |keep|
        invariant 0 <= i <= |keep| && content == old(content)
        invariant Encoded(encode, keep) == written + Encoded(encode, keep[i..])
      {
        assert keep[i..][1..] == keep[i + 1..];
        written := written + (encode(keep[i]) + "\n");
        i := i + 1;
      }
      written := written + if |text| > since then text[since..] else [];
      content := if written == [] then None else Some(written);
    }
  }

  /** One line of the snapshot. outcome: what applying it came to. */
  method JudgeLine(line: Line, outcome: Outcome) returns (fate: Fate)
    ensures fate == Judge(line, outcome)
  {
    if !line.valid {
      return WasDropped;
    }
    if outcome.Failed? {
      var attempts := (if line.attempts.Some? then line.attempts.value else 0) + 1;
      return if attempts >= MAX_ATTEMPTS then WasDropped else Kept(line.(attempts := Some(attempts)));
    }
    fate := if outcome.Queued? then Kept(line) else if outcome.Applied? then WasApplied else WasRefused;
  }

  /** The loop over the snapshot's lines; unchanged lines need no rewrite. */
  method DrainLines(lines: seq<Line>, outcomes: seq<Outcome>) returns (keep: seq<Line>, changed: bool, counts: Counts)
    requires |outcomes| == |lines|
    ensures keep == KeptOf(lines, outcomes) && counts == CountsOf(Counts(0, 0, 0, 0), lines, outcomes)
    ensures !changed ==> keep == lines
  {
    keep, changed, counts := [], false, Counts(0, 0, 0, 0);
    var i := 0;
    while i < |lines|
      invariant 0 <= i <= |lines|
      invariant KeptOf(lines, outcomes) == keep + KeptOf(lines[i..], outcomes[i..])
      invariant CountsOf(Counts(0, 0, 0, 0), lines, outcomes) == CountsOf(counts, lines[i..], outcomes[i..])
      invariant !changed ==> keep == lines[..i]
    {
      var fate := JudgeLine(lines[i], outcomes[i]);
      assert lines[i..][1..] == lines[i + 1..] && outcomes[i..][1..] == outcomes[i + 1..];
      if fate.Kept? {
        keep := keep + [fate.line];
      }
      changed := changed || fate != Kept(lines[i]);
      counts := Count(counts, fate);
      i := i + 1;
    }
  }
}
