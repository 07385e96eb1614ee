/** What each step on the contact inbox does, said whole. */
module ContactInboxSteps {
  import opened Basics
  import opened Jsonl
  import opened ContactInbox

  /** How often a line has failed before. */
  function FailedBefore(v: Line): nat {
    match v.attempts
    case None => 0
    case Some(n) => n
  }

  /**
   * A line that names no answer is dropped. Any other is gone once it was applied or refused, waits as it is while its
   * case is busy, and where it fails waits with one more attempt, or is dropped when this was the fifth.
   */
  lemma JudgeSays(v: Line, outcome: Outcome)
    ensures var fate := Judge(v, outcome);
            && (fate == WasApplied <==> v.valid && outcome == Applied)
            && (fate == WasRefused <==> v.valid && outcome == Refused)
            && (fate == WasDropped <==> !v.valid || (outcome == Failed && FailedBefore(v) >= 4))
            && (fate == Kept(v) <==> v.valid && outcome == Queued)
            && (v.valid && outcome == Failed && FailedBefore(v) < 4 ==>
                  fate == Kept(Line(v.body, true, Some(FailedBefore(v) + 1))))
  {
  }

  /** An answer that comes goes behind what is there. */
  lemma AppendSays(encode: Line -> string, parse: string -> Option<Line>, s: State, v: Line)
    ensures Step(encode, parse, s, AppendLine(v))
         == s.(text := s.text + (encode(v) + "\n"), appended := s.appended + [v])
  {
    assert s.text + encode(v) + "\n" == s.text + (encode(v) + "\n");
  }

  /** One drain at a time takes the lines that parse, and the size of the file; with none of them there is no drain. */
  lemma BeginSays(encode: Line -> string, parse: string -> Option<Line>, s: State)
    ensures var lines, t := Inbox(parse, s.text), Step(encode, parse, s, Begin);
            && (s.drain.Some? || lines == [] ==> t == s)
            && (s.drain.None? && lines != [] ==> t == s.(drain := Some(Drain(lines, |s.text|, 0, [], false))))
  {
  }

  /** The next line of the drain is judged: kept for the rewrite, or gone with its fate. A busy case changes nothing. */
  lemma NextSays(encode: Line -> string, parse: string -> Option<Line>, s: State, outcome: Outcome)
    requires s.drain.Some? && s.drain.value.at < |s.drain.value.lines|
    ensures var d := s.drain.value;
            var v, fate := d.lines[d.at], Judge(d.lines[d.at], outcome);
            Step(encode, parse, s, Next(outcome))
            == s.(drain := Some(Drain(d.lines, d.size, d.at + 1,
                                      if fate.Kept? then d.keep + [fate.line] else d.keep,
                                      d.changed || !(v.valid && outcome == Queued))),
                  gone := if fate.Kept? then s.gone else s.gone + [(v, fate)])
  {
    JudgeSays(s.drain.value.lines[s.drain.value.at], outcome);
  }

  /** Once every line is judged the file is written if anything changed: the kept lines and all that came meanwhile. */
  lemma FinishSays(encode: Line -> string, parse: string -> Option<Line>, s: State, written: bool)
    requires s.drain.Some? && s.drain.value.at >= |s.drain.value.lines|
    ensures var d := s.drain.value;
            var since := if d.size <= |s.text| then s.text[d.size..] else [];
            Step(encode, parse, s, Finish(written))
            == s.(drain := None, text := if d.changed && written then Encoded(encode, d.keep) + since else s.text)
  {
  }

  /** A drain that is not at its end finishes nothing, and one that is at its end judges nothing more. */
  lemma NothingToDo(encode: Line -> string, parse: string -> Option<Line>, s: State, outcome: Outcome, written: bool)
    ensures s.drain.None? || s.drain.value.at >= |s.drain.value.lines| ==> Step(encode, parse, s, Next(outcome)) == s
    ensures s.drain.None? || s.drain.value.at < |s.drain.value.lines| ==> Step(encode, parse, s, Finish(written)) == s
  {
  }

  /** A crash ends the drain and leaves the file. */
  lemma CrashSays(encode: Line -> string, parse: string -> Option<Line>, s: State)
    ensures Step(encode, parse, s, Crash) == s.(drain := None)
  {
  }
}
