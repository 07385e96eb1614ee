/**
 * Answers that waited behind a busy case (src/cases/contact-state.js, src/cases/contact.js): a drain reads a snapshot,
 * takes its time, and rewrites the file while others append.
 */
module ContactInbox {
  import opened Basics
  import opened Jsonl

  /** body: what the line answers. valid: it names a channel, a case, a question and an answer. */
  datatype Line = Line(body: int, valid: bool, attempts: Option<nat>)

  /** What applying one line came to. */
  datatype Outcome = Applied | Refused | Queued | Failed

  datatype Fate = WasApplied | WasRefused | WasDropped | Kept(line: Line)

  const MAX_ATTEMPTS := 5

  // ---- The file ----

  ghost predicate Codec(encode: Line -> string, parse: string -> Option<Line>) {
    forall v :: '\n' !in encode(v) && encode(v) != [] && parse(encode(v)) == Some(v)
  }

  /** The lines that parse, in order; the others are passed over. */
  function Parsed(parse: string -> Option<Line>, raws: seq<string>): seq<Line> {
    if raws == [] then []
    else (if raws[0] != [] && parse(raws[0]).Some? then [parse(raws[0]).value] else []) + Parsed(parse, raws[1..])
  }

  function Inbox(parse: string -> Option<Line>, text: string): seq<Line> {
    Parsed(parse, Split(text))
  }

  /** appendInbox. Unlike the other stores it does not look whether the file ends with a newline. */
  function Append(encode: Line -> string, text: string, v: Line): string {
    text + encode(v) + "\n"
  }

  function Encoded(encode: Line -> string, lines: seq<Line>): string {
    if lines == [] then [] else encode(lines[0]) + "\n" + Encoded(encode, lines[1..])
  }

  /** rewriteInbox: the kept lines, and then whatever was appended after the snapshot. */
  function Rewrite(encode: Line -> string, text: string, keep: seq<Line>, size: nat): string {
    Encoded(encode, keep) + (if |text| > size then text[size..] else [])
  }

  // ---- One drain ----

  function Attempts(v: Line): nat {
    if v.attempts.Some? then v.attempts.value else 0
  }

  function Judge(v: Line, outcome: Outcome): Fate {
    if !v.valid then WasDropped
    else
      match outcome
      case Applied => WasApplied
      case Refused => WasRefused
      case Queued => Kept(v)
      case Failed => if Attempts(v) + 1 >= MAX_ATTEMPTS then WasDropped else Kept(v.(attempts := Some(Attempts(v) + 1)))
  }

  /** The drain in progress: the snapshot, how far it is, and what it will write back. */
  datatype Drain = Drain(lines: seq<Line>, size: nat, at: nat, keep: seq<Line>, changed: bool)

  /** gone: what left the inbox, with how. */
  datatype State = State(text: string, drain: Option<Drain>, appended: seq<Line>, gone: seq<(Line, Fate)>)

  /** written: whether the rewrite succeeded. Crash: the process ends, and any drain with it. */
  datatype Event = AppendLine(line: Line) | Begin | Next(outcome: Outcome) | Finish(written: bool) | Crash

  function JudgeNext(d: Drain, outcome: Outcome): Drain
    requires d.at < |d.lines|
  {
    var fate := Judge(d.lines[d.at], outcome);
    d.(at := d.at + 1,
       keep := if fate.Kept? then d.keep + [fate.line] else d.keep,
       changed := d.changed || fate != Kept(d.lines[d.at]))
  }

  function Step(encode: Line -> string, parse: string -> Option<Line>, s: State, event: Event): State {
    match event
    case AppendLine(v) => s.(text := Append(encode, s.text, v), appended := s.appended + [v])
    case Begin =>
      if s.drain.Some? then s
      else
        var lines := Inbox(parse, s.text);
        if lines == [] then s else s.(drain := Some(Drain(lines, |s.text|, 0, [], false)))
    case Next(outcome) =>
      if s.drain.None? || s.drain.value.at >= |s.drain.value.lines| then s
      else
        var d := s.drain.value;
        var fate := Judge(d.lines[d.at], outcome);
        s.(drain := Some(JudgeNext(d, outcome)), gone := if fate.Kept? then s.gone
            else s.gone + [(d.lines[d.at], fate)])
    case Finish(written) =>
      if s.drain.None? || s.drain.value.at < |s.drain.value.lines| then s
      else if s.drain.value.changed && written then
        s.(text := Rewrite(encode, s.text, s.drain.value.keep, s.drain.value.size), drain := None)
      else s.(drain := None)
    case Crash => s.(drain := None)
  }

  function Run(encode: Line -> string, parse: string -> Option<Line>, s: State, events: seq<Event>): State
    decreases events
  {
    if events == [] then s else Run(encode, parse, Step(encode, parse, s, events[0]), events[1..])
  }
}
