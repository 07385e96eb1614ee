/**
 * How an owner's reply is read (src/cases/contact-format.js): tokens, numbered lines, options and conflicting
 * answers.
 */
module ContactFormat {
  import opened Basics
  import opened Jsonl

  datatype Choice = Choice(id: string, caption: string)

  datatype Item = Item(n: nat, token: string, options: seq<Choice>, caseTitle: string)

  datatype Batch = Batch(token: string, items: seq<Item>)

  datatype Answer = Pick(optionId: string) | Text(text: string)

  /** item: its position in the batch. */
  datatype Found = Found(item: nat, answer: Answer)

  // ---- Characters ----

  predicate IsTerminator(c: char) {
    c == '\n' || c == '\r' || c == '\U{2028}' || c == '\U{2029}'
  }

  predicate OneLine(s: string) {
    forall c | c in s :: !IsTerminator(c)
  }

  predicate IsDigit(c: char) {
    '0' <= c <= '9'
  }

  predicate IsAlphanumeric(c: char) {
    IsDigit(c) || 'a' <= c <= 'z' || 'A' <= c <= 'Z'
  }

  function LowerChar(c: char): char {
    if 'A' <= c <= 'Z' then (c as int + 32) as char else c
  }

  function UpperChar(c: char): char {
    if 'a' <= c <= 'z' then (c as int - 32) as char else c
  }

  function Lower(s: string): (l: string)
    ensures |l| == |s| && (forall i | 0 <= i < |s| :: l[i] == LowerChar(s[i]))
  {
    if s == [] then [] else [LowerChar(s[0])] + Lower(s[1..])
  }

  function Upper(s: string): (u: string)
    ensures |u| == |s| && (forall i | 0 <= i < |s| :: u[i] == UpperChar(s[i]))
  {
    if s == [] then [] else [UpperChar(s[0])] + Upper(s[1..])
  }

  predicate StartsWith(s: string, prefix: string) {
    prefix <= s
  }

  // ---- Options ----

  predicate IsTrailing(c: char) {
    IsSpace(c) || c in ".!?,;:"
  }

  function DropTrailing(s: string): string {
    if s != [] && IsTrailing(s[|s| - 1]) then DropTrailing(s[..|s| - 1]) else s
  }

  function MatchKey(s: string): string {
    Lower(DropTrailing(Trim(s)))
  }

  predicate Matches(o: Choice, key: string) {
    MatchKey(o.id) == key || MatchKey(o.caption) == key
  }

  function Hits(options: seq<Choice>, key: string): seq<Choice> {
    if options == [] then []
    else (if Matches(options[0], key) then [options[0]] else []) + Hits(options[1..], key)
  }

  /** A key that matches no option or several is text: no option is chosen by guess. */
  function OptionOrText(options: seq<Choice>, rest: string): Answer {
    var raw := Trim(rest);
    var key := MatchKey(raw);
    if key == [] then Text(raw)
    else
      var hits := Hits(options, key);
      if |hits| == 1 then Pick(hits[0].id) else Text(raw)
  }

  // ---- One line ----

  /** `#`, six token characters, and then the end or white space and the rest of the line. */
  function LineToken(line: string): Option<(string, string)> {
    if |line| < 7 || line[0] != '#' || !(forall i | 1 <= i < 7 :: IsAlphanumeric(line[i])) then None
    else if |line| == 7 then Some((line[1..7], []))
    else if !IsSpace(line[7]) || !OneLine(TrimStart(line[7..])) then None
    else Some((line[1..7], TrimStart(line[7..])))
  }

  predicate IsTokenChar(c: char) {
    IsDigit(c) || 'A' <= c <= 'H' || c == 'J' || c == 'K' || c == 'M' || c == 'N' || 'P' <= c <= 'T' || 'V' <= c <= 'Z'
  }

  predicate IsToken(t: string) {
    |t| == 6 && (forall c | c in t :: IsTokenChar(c))
  }

  function DigitValue(c: char): nat
    requires IsDigit(c)
  {
    c as nat - '0' as nat
  }

  function AfterMark(s: string): string {
    if s != [] && (s[0] == '.' || s[0] == ')') then s[1..] else s
  }

  /** White space and then the answer, after an item's number. */
  function AfterNumber(n: nat, s: string): Option<(nat, string)> {
    var tail := AfterMark(s);
    if tail == [] || !IsSpace(tail[0]) || TrimStart(tail) == [] || !OneLine(TrimStart(tail)) then None
    else Some((n, TrimStart(tail)))
  }

  /** One or two digits, perhaps a point or a bracket, white space, and the answer. */
  function Numbered(rest: string): Option<(nat, string)> {
    if rest == [] || !IsDigit(rest[0]) then None
    else if |rest| > 1 && IsDigit(rest[1]) then AfterNumber(10 * DigitValue(rest[0]) + DigitValue(rest[1]), rest[2..])
    else AfterNumber(DigitValue(rest[0]), rest[1..])
  }

  /** The position of the first item with this number, or the number of items. */
  function ByNumber(items: seq<Item>, n: nat): (i: nat)
    ensures i <= |items| && (i < |items| ==> items[i].n == n)
  {
    if items == [] || items[0].n == n then 0 else 1 + ByNumber(items[1..], n)
  }

  function ByToken(items: seq<Item>, token: string): (i: nat)
    ensures i <= |items| && (i < |items| ==> items[i].token == token)
  {
    if items == [] || items[0].token == token then 0 else 1 + ByToken(items[1..], token)
  }

  /** A quoted copy of the question. */
  predicate IsItemHeader(item: Item, rest: string) {
    item.caseTitle != [] &&
    StartsWith(if StartsWith(rest, "[HIGH] ") then rest[7..] else rest, item.caseTitle + " \U{2014} ")
  }

  predicate PickedElsewhere(items: seq<Item>, i: nat, rest: string) {
    exists j :: 0 <= j < |items| && j != i && OptionOrText(items[j].options, rest).Pick?
  }

  /** What a line says about item i. Text is taken only where free text is allowed and no other item has that option. */
  function AnswerFor(items: seq<Item>, i: nat, rest: string, freeText: bool): Option<Found>
    requires i < |items|
  {
    if rest == [] || IsItemHeader(items[i], rest) then None
    else
      var answer := OptionOrText(items[i].options, rest);
      if answer.Text? && (!freeText || PickedElsewhere(items, i, rest)) then None
      else Some(Found(i, answer))
  }

  /** A line without an item's own token: numbered, or the only item's answer. */
  function AnswerByNumber(items: seq<Item>, rest: string, tokened: bool): Option<Found> {
    var numbered := Numbered(rest);
    if numbered.Some? && ByNumber(items, numbered.value.0) < |items| then
      AnswerFor(items, ByNumber(items, numbered.value.0), numbered.value.1, tokened)
    else if |items| == 1 then AnswerFor(items, 0, rest, true)
    else None
  }

  function LineAnswer(batch: Batch, threaded: bool, line: string): Option<Found> {
    var items := batch.items;
    match LineToken(line)
    case Some((written, rest)) =>
      var token := Upper(written);
      if !IsToken(token) then None
      else if ByToken(items, token) < |items| then AnswerFor(items, ByToken(items, token), rest, true)
      else if token != batch.token then None
      else AnswerByNumber(items, rest, true)
    case None =>
      if !threaded || |items| == 1 then None else AnswerByNumber(items, line, false)
  }

  /** What every line says, in order, given what one line says. */
  function FoundBy(answer: string -> Option<Found>, lines: seq<string>): seq<Found> {
    if lines == [] then []
    else
      (match answer(lines[0]) case Some(f) => [f] case None => [])
      + FoundBy(answer, lines[1..])
  }

  function Reader(batch: Batch, threaded: bool): string -> Option<Found> {
    line => LineAnswer(batch, threaded, line)
  }

  function FoundIn(batch: Batch, threaded: bool, lines: seq<string>): seq<Found> {
    FoundBy(Reader(batch, threaded), lines)
  }

  // ---- The whole reply ----

  /** A final \r belongs to its line's break. */
  function ReplyLines(text: string): seq<string> {
    Worded(Split(text))
  }

  function Worded(lines: seq<string>): seq<string> {
    if lines == [] then []
    else
      var line := Trim(lines[0]);
      (if line != [] && line[0] != '>' then [line] else []) + Worded(lines[1..])
  }

  predicate NamesToken(batch: Batch, line: string) {
    match LineToken(line)
    case Some((written, _)) => Upper(written) == batch.token || ByToken(batch.items, Upper(written)) < |batch.items|
    case None => false
  }

  /** The first answer to this item, if no other answer to it differs. */
  predicate Stands(found: seq<Found>, k: nat)
    requires k < |found|
  {
    && (forall j | 0 <= j < k :: found[j].item != found[k].item)
    && (forall j | 0 <= j < |found| :: found[j].item == found[k].item ==> found[j].answer == found[k].answer)
  }

  /** Of the first n answers, those that stand, in the order they came. */
  function Standing(found: seq<Found>, n: nat): seq<Found>
    requires n <= |found|
  {
    if n == 0 then [] else Standing(found, n - 1) + (if Stands(found, n - 1) then [found[n - 1]] else [])
  }

  datatype Reply = Reply(answers: seq<Found>, ack: bool)

  // ---- A threaded reply to a single item ----

  /** Lines as the mail has them: a final \r belongs to its line's break. */
  function DropReturns(lines: seq<string>): seq<string> {
    if |lines| <= 1 then lines
    else
      var line := lines[0];
      [if line != [] && line[|line| - 1] == '\r' then line[..|line| - 1] else line] + DropReturns(lines[1..])
  }

  predicate IsQuoted(line: string) {
    StartsWith(TrimStart(line), ">")
  }

  function Own(line: string): seq<string> {
    if IsQuoted(line) then [] else [Trim(line)]
  }

  /** The lines from i on, up to where the quoted history starts, without quoted ones. */
  function Unquoted(lines: seq<string>, i: nat, quoteStarts: (seq<string>, nat) -> bool): seq<string>
    decreases |lines| - i
  {
    if i >= |lines| || quoteStarts(lines, i) then []
    else Own(lines[i]) + Unquoted(lines, i + 1, quoteStarts)
  }

  predicate IsWordChar(c: char) {
    IsAlphanumeric(c) || c == '_'
  }

  predicate IsSentFrom(line: string) {
    |line| >= 12 && Lower(line[..12]) == "sent from my" && (|line| == 12 || !IsWordChar(line[12]))
  }

  function DropEnd(lines: seq<string>): seq<string> {
    if lines == [] then lines
    else
      var last := lines[|lines| - 1];
      if last == [] || IsSentFrom(last) then DropEnd(lines[..|lines| - 1]) else lines
  }

  /** What stands behind an item's number, if one is there. */
  function AfterItemNumber(line: string): string {
    if line == [] || !IsDigit(line[0]) then line
    else
      var tail := AfterMark(if |line| > 1 && IsDigit(line[1]) then line[2..] else line[1..]);
      if tail != [] && IsSpace(tail[0]) then TrimStart(tail) else line
  }

  /** It is not blank and no copy of the question. */
  predicate SaysSomething(item: Item, line: string) {
    line != [] && !IsItemHeader(item, AfterItemNumber(line))
  }

  function Body(item: Item, lines: seq<string>): seq<string> {
    if lines == [] then []
    else
      (if SaysSomething(item, lines[0]) then [lines[0]] else []) + Body(item, lines[1..])
  }

  function Joined(lines: seq<string>): string {
    if lines == [] then [] else if |lines| == 1 then lines[0]
    else Joined(lines[..|lines| - 1]) + "\n" + lines[|lines| - 1]
  }

  /** The whole reply as one answer, without its quoted history, its signature and copies of the question. */
  function WholeAnswer(item: Item, text: string, quoteStarts: (seq<string>, nat) -> bool): Option<Answer> {
    var body := Body(item, DropEnd(Unquoted(DropReturns(Split(text)), 0, quoteStarts)));
    if body == [] then None else Some(OptionOrText(item.options, Joined(body)))
  }

  /** A reply tied to a single item that names no token is one answer. */
  predicate IsWhole(batch: Batch, text: string, threaded: bool) {
    threaded && |batch.items| == 1 && !(exists line :: line in ReplyLines(text) && NamesToken(batch, line))
  }

  /** quoteStarts: whether the quoted history starts at a line. */
  function ParseReply(batch: Batch, text: string, threaded: bool, quoteStarts: (seq<string>, nat) -> bool): Reply {
    if IsWhole(batch, text, threaded) then
      match WholeAnswer(batch.items[0], text, quoteStarts)
      case Some(answer) => Reply([Found(0, answer)], false)
      case None => Reply([], true)
    else
      var found := FoundIn(batch, threaded, ReplyLines(text));
      var answers := Standing(found, |found|);
      Reply(answers, answers == [])
  }
}
