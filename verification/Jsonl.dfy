/** Append-only files of one JSON value a line (src/cases/jsonl.js), at the level of their characters. */
module Jsonl {
  import opened Basics

  /** What String.prototype.trim takes away. */
  predicate IsSpace(c: char) {
    || '\U{0009}' <= c <= '\U{000D}' || c == ' ' || c == '\U{00A0}' || c == '\U{1680}' || '\U{2000}' <= c <= '\U{200A}'
    || c == '\U{2028}' || c == '\U{2029}' || c == '\U{202F}' || c == '\U{205F}' || c == '\U{3000}' || c == '\U{FEFF}'
  }

  function TrimStart(s: string): string {
    if s != [] && IsSpace(s[0]) then TrimStart(s[1..]) else s
  }

  function TrimEnd(s: string): string {
    if s != [] && IsSpace(s[|s| - 1]) then TrimEnd(s[..|s| - 1]) else s
  }

  function Trim(s: string): string {
    TrimEnd(TrimStart(s))
  }

  /** text.split('\n'): always at least one line. */
  function Split(text: string): (lines: seq<string>)
    ensures |lines| > 0
  {
    if text == [] then [[]]
    else
      var rest := Split(text[1..]);
      if text[0] == '\n' then [[]] + rest else [[text[0]] + rest[0]] + rest[1..]
  }

  predicate EndsWithNewline(text: string) {
    text == [] || text[|text| - 1] == '\n'
  }

  /** A line that lost its final newline is closed first. */
  function Appended(text: string, line: string): string {
    (if EndsWithNewline(text) then text else text + "\n") + line + "\n"
  }

  // ---- Replaying a file ----

  /** What a reader made of the lines so far; errors hold 1-based line numbers. */
  datatype Replay<S> = Replay(state: S, errors: seq<nat>)

  /** A check may keep something of a value that it rejects. */
  datatype Checked<S> = Checked(state: S, ok: bool)

  /** One raw line: blank lines are skipped, lines that do not parse or that the check rejects are errors. */
  function ReadLine<S,
      V>(parse: string -> Option<V>, check: (S, V) -> Checked<S>, r: Replay<S>, raw: string, n: nat): Replay<S> {
    var line := Trim(raw);
    if line == [] then r
    else
      match parse(line)
      case None => r.(errors := r.errors + [n])
      case Some(value) =>
        var checked := check(r.state, value);
        Replay(checked.state, if checked.ok then r.errors else r.errors + [n])
  }

  function ReadLines<S,
      V>(parse: string -> Option<V>, check: (S, V) -> Checked<S>, r: Replay<S>, lines: seq<string>, n: nat): Replay<S>
    decreases lines
  {
    if lines == [] then r else ReadLines(parse, check, ReadLine(parse, check, r, lines[0], n), lines[1..], n + 1)
  }

  function ReadText<S, V>(parse: string -> Option<V>, check: (S, V) -> Checked<S>, start: S, text: string): Replay<S> {
    ReadLines(parse, check, Replay(start, []), Split(text), 1)
  }

  /** The encoded value stays on one line, is not blank, and decodes to itself. */
  ghost predicate EncodesTo<V>(parse: string -> Option<V>, line: string, value: V) {
    '\n' !in line && Trim(line) != [] && parse(Trim(line)) == Some(value)
  }

  // ---- What trimming leaves ----

  /** The white space and the line ends of section 12 of ECMA-262, the first of them to the last. */
  lemma SpacesAre(c: char)
    ensures IsSpace(c) <==>
              c in {'\t', '\n', '\U{000B}', '\U{000C}', '\r', ' ', '\U{00A0}', '\U{1680}', '\U{2000}', '\U{2001}',
                    '\U{2002}', '\U{2003}', '\U{2004}', '\U{2005}', '\U{2006}', '\U{2007}', '\U{2008}', '\U{2009}',
                    '\U{200A}', '\U{2028}', '\U{2029}', '\U{202F}', '\U{205F}', '\U{3000}', '\U{FEFF}'}
  {
  }

  /** From i on, where i is the first that is no space. */
  lemma {:induction false} TrimStartSays(s: string) returns (i: nat)
    ensures i <= |s| && TrimStart(s) == s[i..] && (i < |s| ==> !IsSpace(s[i]))
    ensures forall k | 0 <= k < i :: IsSpace(s[k])
    decreases |s|
  {
    i := 0;
    if s != [] && IsSpace(s[0]) {
      var rest := TrimStartSays(s[1..]);
      i := rest + 1;
      assert forall k | 0 < k < |s| :: s[k] == s[1..][k - 1];
    }
  }

  lemma {:induction false} TrimEndSays(s: string) returns (j: nat)
    ensures j <= |s| && TrimEnd(s) == s[..j] && (j > 0 ==> !IsSpace(s[j - 1]))
    ensures forall k | j <= k < |s| :: IsSpace(s[k])
    decreases |s|
  {
    j := |s|;
    if s != [] && IsSpace(s[|s| - 1]) {
      j := TrimEndSays(s[..|s| - 1]);
      assert s[..|s| - 1][..j] == s[..j];
    } else {
      assert s[..j] == s;
    }
  }

  /** Trimming takes all the spaces in front and behind, and nothing else. */
  lemma TrimSays(s: string) returns (i: nat, j: nat)
    ensures i <= j <= |s| && Trim(s) == s[i..j]
    ensures forall k | 0 <= k < |s| && !(i <= k < j) :: IsSpace(s[k])
    ensures i < j ==> !IsSpace(s[i]) && !IsSpace(s[j - 1])
  {
    i := TrimStartSays(s);
    var n := TrimEndSays(s[i..]);
    j := i + n;
    assert s[i..][..n] == s[i..j];
    forall k | 0 <= k < |s| && !(i <= k < j) ensures IsSpace(s[k]) {
      if k >= j {
        assert s[k] == s[i..][k - i];
      }
    }
  }

  // ---- What an append does to what a reader sees ----

  lemma {:induction false} SplitOne(line: string)
    requires '\n' !in line
    ensures Split(line) == [line]
    decreases |line|
  {
    if line != [] {
      SplitOne(line[1..]);
      assert [line[0]] + line[1..] == line;
    }
  }

  lemma SplitCons(c: char, rest: string)
    ensures Split([c] + rest) == (if c == '\n' then [[]] + Split(rest) else [[c] + Split(rest)[0]] + Split(rest)[1..])
  {
    assert ([c] + rest)[1..] == rest;
  }

  lemma HeadJoins<T>(x: T, y: T, rest: seq<T>, more: seq<T>)
    requires |rest| > 0
    ensures (rest + more)[0] == rest[0] && [x] + (rest + more)[1..] == ([x] + rest[1..]) + more
    ensures [y] + (rest + more) == ([y] + rest) + more
  {
    assert (rest + more)[1..] == rest[1..] + more;
  }

  lemma {:induction false} SplitJoins(a: string, b: string)
    ensures Split(a + "\n" + b) == Split(a) + Split(b)
    decreases |a|
  {
    if a == [] {
      SplitCons('\n', b);
      assert a + "\n" + b == ['\n'] + b;
    } else {
      var rest, tail := Split(a[1..]), a[1..] + "\n" + b;
      SplitJoins(a[1..], b);
      assert a + "\n" + b == [a[0]] + tail;
      SplitCons(a[0], tail);
      HeadJoins([a[0]] + rest[0], [], rest, Split(b));
      assert [a[0]] + a[1..] == a;
      SplitCons(a[0], a[1..]);
    }
  }

  /** The lines of a file, less the empty one after a final newline. */
  function Head(text: string): seq<string> {
    var lines := Split(text);
    if EndsWithNewline(text) then lines[..|lines| - 1] else lines
  }

  lemma LastGone<T>(xs: seq<T>, x: T)
    ensures (xs + [x])[..|xs| + 1 - 1] == xs
  {
  }

  lemma SplitEnded(short: string)
    ensures Split(short + "\n") == Split(short) + [[]]
  {
    assert short + "\n" + [] == short + "\n";
    SplitJoins(short, []);
  }

  lemma HeadOfEnded(short: string)
    ensures Head(short + "\n") == Split(short)
  {
    SplitEnded(short);
    LastGone(Split(short), []);
  }

  lemma HeadOfOpen(text: string)
    requires !EndsWithNewline(text)
    ensures Head(text) == Split(text)
  {
  }

  lemma HeadOfEmpty()
    ensures Split([]) == [[]] && Head([]) == []
  {
    LastGone<string>([], []);
  }

  lemma HeadOf(text: string)
    ensures EndsWithNewline(text) ==> Split(text) == Head(text) + [[]]
    ensures !EndsWithNewline(text) ==> Split(text) == Head(text)
    ensures text != [] && EndsWithNewline(text) ==> Head(text) == Split(text[..|text| - 1])
  {
    if text == [] {
      HeadOfEmpty();
    } else if EndsWithNewline(text) {
      assert text == text[..|text| - 1] + "\n";
      HeadOfEnded(text[..|text| - 1]);
      SplitEnded(text[..|text| - 1]);
    } else {
      HeadOfOpen(text);
    }
  }

  lemma LineEnds(line: string)
    requires '\n' !in line
    ensures Split(line + "\n") == [line, []]
  {
    SplitOne(line);
    SplitJoins(line, []);
    assert line + "\n" + [] == line + "\n";
  }

  lemma AppendedText(text: string, line: string)
    ensures text == [] ==> Appended(text, line) == line + "\n"
    ensures text != [] && EndsWithNewline(text) ==> Appended(text, line) == text[..|text| - 1] + "\n" + (line + "\n")
    ensures text != [] && !EndsWithNewline(text) ==> Appended(text, line) == text + "\n" + (line + "\n")
  {
    if text != [] && EndsWithNewline(text) {
      assert text == text[..|text| - 1] + "\n";
    }
  }

  /** An append adds one line and leaves the others where they were. */
  lemma AppendAddsALine(text: string, line: string)
    requires '\n' !in line
    ensures Split(Appended(text, line)) == Head(text) + [line, []]
  {
    HeadOf(text);
    LineEnds(line);
    AppendedText(text, line);
    if text != [] && EndsWithNewline(text) {
      SplitJoins(text[..|text| - 1], line + "\n");
    } else if text != [] {
      SplitJoins(text, line + "\n");
    }
  }

  lemma {:induction false} ReadLinesJoins<S, V>(parse: string -> Option<V>, check: (S, V) -> Checked<S>, r: Replay<S>,
                                                a: seq<string>, b: seq<string>, n: nat)
    ensures ReadLines(parse, check, r, a + b, n)
        == ReadLines(parse, check, ReadLines(parse, check, r, a, n), b, n + |a|)
    decreases |a|
  {
    if a == [] {
      assert a + b == b;
    } else {
      assert (a + b)[1..] == a[1..] + b;
      ReadLinesJoins(parse, check, ReadLine(parse, check, r, a[0], n), a[1..], b, n + 1);
    }
  }

  /** One blank line at the end changes nothing. */
  lemma BlankEnd<S, V>(parse: string -> Option<V>, check: (S, V) -> Checked<S>, r: Replay<S>, head: seq<string>, n: nat)
    ensures ReadLines(parse, check, r, head + [[]], n) == ReadLines(parse, check, r, head, n)
  {
    ReadLinesJoins(parse, check, r, head, [[]], n);
    var blank: seq<string> := [[]];
    assert blank[1..] == [];
  }

  /**
   * Whatever the file holds, a lost final newline included, reading it after an append is reading it before and then
   * taking one step with the appended value; earlier errors keep their line numbers.
   */
  lemma AppendIsOneStep<S,
      V>(parse: string -> Option<V>, check: (S, V) -> Checked<S>, start: S, text: string, line: string, value: V)
    requires EncodesTo(parse, line, value)
    ensures var was := ReadText(parse, check, start, text);
      var checked := check(was.state, value);
      var now := ReadText(parse, check, start, Appended(text, line));
      && now.state == checked.state
      && was.errors <= now.errors && |now.errors| == |was.errors| + (if checked.ok then 0 else 1)
  {
    var r := Replay(start, []);
    AppendAddsALine(text, line);
    HeadOf(text);
    var head := Head(text);
    BlankEnd(parse, check, r, head, 1);
    assert head + [line, []] == head + [line] + [[]];
    BlankEnd(parse, check, r, head + [line], 1);
    ReadLinesJoins(parse, check, r, head, [line], 1);
    assert [line][1..] == [];
  }

  /** A file of one value a line, missing until the first append. */
  class JsonlFile {
    var content: Option<string>

    ghost function Text(): string
      reads this
    {
      if content.Some? then content.value else []
    }

    constructor (content: Option<string>)
      ensures this.content == content
    {
      this.content := content;
    }

    method Append(line: string)
      modifies this
      ensures content == Some(Appended(old(Text()), line))
    {
      var text := if content.Some? then content.value else [];
      var lead := if EndsWithNewline(text) then "" else "\n";
      assert EndsWithNewline(text) ==> text + lead == text;
      content := Some(text + lead + line + "\n");
    }

    method Read<S, V>(parse: string -> Option<V>, check: (S, V) -> Checked<S>, start: S)
      returns (state: S, errors: seq<nat>)
      ensures ReadText(parse, check, start, Text()) == Replay(state, errors)
    {
      var lines := Split(if content.Some? then content.value else []);
      state, errors := start, [];
      var i := 0;
      while i < |lines|
        invariant 0 <= i <= |lines|
        invariant ReadText(parse, check, start, Text())
            == ReadLines(parse, check, Replay(state, errors), lines[i..], i + 1)
      {
        var line := Trim(lines[i]);
        assert lines[i..][1..] == lines[i + 1..];
        if line != [] {
          var parsed := parse(line);
          if parsed.None? {
            errors := errors + [i + 1];
          } else {
            var checked := check(state, parsed.value);
            state := checked.state;
            if !checked.ok {
              errors := errors + [i + 1];
            }
          }
        }
        i := i + 1;
      }
    }
  }
}
