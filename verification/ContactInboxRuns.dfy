/** A drain loses nothing, whatever is appended while it runs. */
module ContactInboxRuns {
  import opened Basics
  import opened Jsonl
  import opened ContactInbox

  // ---- What a text holds ----

  lemma {:induction false} ParsedJoins(parse: string -> Option<Line>, a: seq<string>, b: seq<string>)
    ensures Parsed(parse, a + b) == Parsed(parse, a) + Parsed(parse, b)
    decreases |a|
  {
    if a == [] {
      assert a + b == b;
    } else {
      assert (a + b)[1..] == a[1..] + b;
      ParsedJoins(parse, a[1..], b);
    }
  }

  lemma BlankIsNothing(parse: string -> Option<Line>)
    ensures Inbox(parse, []) == []
  {
    var blank: seq<string> := [[]];
    assert Split([]) == blank && blank[1..] == [];
  }

  /** After a final newline, a text's lines and the next text's lines are just one after the other. */
  lemma InboxJoins(parse: string -> Option<Line>, a: string, b: string)
    requires EndsWithNewline(a)
    ensures Inbox(parse, a + b) == Inbox(parse, a) + Inbox(parse, b)
  {
    BlankIsNothing(parse);
    if a == [] {
      assert a + b == b;
    } else {
      var short := a[..|a| - 1];
      assert a == short + "\n" + [] && a + b == short + "\n" + b;
      SplitJoins(short, b);
      SplitJoins(short, []);
      ParsedJoins(parse, Split(short), Split(b));
      ParsedJoins(parse, Split(short), Split([]));
    }
  }

  lemma OneLineInbox(encode: Line -> string, parse: string -> Option<Line>, v: Line)
    requires Codec(encode, parse)
    ensures Inbox(parse, encode(v) + "\n") == [v]
  {
    LineEnds(encode(v));
    var raws: seq<string> := [encode(v), []];
    assert raws[1..][1..] == [];
    assert Parsed(parse, raws[1..]) == [];
    assert parse(encode(v)) == Some(v);
  }

  /** An append to a file that ends with a newline, or to no file, adds its line and changes no other. */
  lemma AppendAdds(encode: Line -> string, parse: string -> Option<Line>, text: string, v: Line)
    requires Codec(encode, parse) && EndsWithNewline(text)
    ensures Inbox(parse, Append(encode, text, v)) == Inbox(parse, text) + [v]
    ensures EndsWithNewline(Append(encode, text, v))
  {
    InboxJoins(parse, text, encode(v) + "\n");
    OneLineInbox(encode, parse, v);
    assert Append(encode, text, v) == text + (encode(v) + "\n");
  }

  lemma {:induction false} EncodedHolds(encode: Line -> string, parse: string -> Option<Line>, lines: seq<Line>)
    requires Codec(encode, parse)
    ensures Inbox(parse, Encoded(encode, lines)) == lines && EndsWithNewline(Encoded(encode, lines))
    decreases |lines|
  {
    if lines == [] {
      BlankIsNothing(parse);
    } else {
      EncodedHolds(encode, parse, lines[1..]);
      OneLineInbox(encode, parse, lines[0]);
      InboxJoins(parse, encode(lines[0]) + "\n", Encoded(encode, lines[1..]));
    }
  }

  lemma LastOf(a: string, b: string)
    requires EndsWithNewline(a)
    ensures EndsWithNewline(a + b) <==> EndsWithNewline(b)
  {
    if b == [] {
      assert a + b == a;
    }
  }

  /** The rewritten file holds the kept lines in order and then everything appended since the snapshot. */
  lemma RewriteKeepsTheRest(encode: Line -> string,
      parse: string -> Option<Line>, text: string, keep: seq<Line>, size: nat)
    requires Codec(encode, parse) && size <= |text|
    ensures Inbox(parse, Rewrite(encode, text, keep, size)) == keep + Inbox(parse, text[size..])
    ensures EndsWithNewline(text) ==> EndsWithNewline(Rewrite(encode, text, keep, size))
  {
    var head, tail := Encoded(encode, keep), text[size..];
    EncodedHolds(encode, parse, keep);
    InboxJoins(parse, head, tail);
    assert Rewrite(encode, text, keep, size) == head + tail;
    LastOf(head, tail);
    assert tail != [] ==> tail[|tail| - 1] == text[|text| - 1];
  }

  // ---- A file that lost its final newline ----

  /** The unfinished last line of a text. */
  function LastPiece(text: string): string {
    var raws := Split(text);
    raws[|raws| - 1]
  }

  /** The last of some raw lines goes on with the first of others. */
  function Glue(raws: seq<string>, more: seq<string>): (glued: seq<string>)
    requires raws != [] && more != []
    ensures glued != []
  {
    raws[..|raws| - 1] + [raws[|raws| - 1] + more[0]] + more[1..]
  }

  lemma GlueAfter(y: string, raws: seq<string>, more: seq<string>)
    requires raws != [] && more != []
    ensures Glue([y] + raws, more) == [y] + Glue(raws, more)
  {
    var all := [y] + raws;
    assert all[|all| - 1] == raws[|raws| - 1] && all[..|all| - 1] == [y] + raws[..|raws| - 1];
  }

  lemma GlueHead(c: char, raws: seq<string>, more: seq<string>)
    requires raws != [] && more != []
    ensures Glue([[c] + raws[0]] + raws[1..], more) == [[c] + Glue(raws, more)[0]] + Glue(raws, more)[1..]
  {
    if |raws| == 1 {
      assert [[c] + raws[0]] + raws[1..] == [[c] + raws[0]];
      assert [c] + raws[0] + more[0] == [c] + (raws[0] + more[0]);
      assert Glue(raws, more) == [raws[0] + more[0]] + more[1..];
    } else {
      GlueAfter([c] + raws[0], raws[1..], more);
      GlueAfter(raws[0], raws[1..], more);
      assert raws == [raws[0]] + raws[1..];
    }
  }

  lemma GlueEmpty(more: seq<string>)
    requires more != []
    ensures Glue([[]], more) == more
  {
    var blank: string := [];
    assert blank + more[0] == more[0];
  }

  lemma {:induction false} SplitGlues(text: string, tail: string)
    ensures Split(text + tail) == Glue(Split(text), Split(tail))
    decreases |text|
  {
    if text == [] {
      assert text + tail == tail;
      GlueEmpty(Split(tail));
    } else {
      SplitGlues(text[1..], tail);
      assert text + tail == [text[0]] + (text[1..] + tail) && text == [text[0]] + text[1..];
      SplitCons(text[0], text[1..] + tail);
      SplitCons(text[0], text[1..]);
      GlueAfter([], Split(text[1..]), Split(tail));
      GlueHead(text[0], Split(text[1..]), Split(tail));
    }
  }

  lemma AppendToPiece(encode: Line -> string, parse: string -> Option<Line>, text: string, v: Line)
    requires Codec(encode, parse)
    ensures var raws := Split(text);
      Split(Append(encode, text, v)) == raws[..|raws| - 1] + [LastPiece(text) + encode(v), []]
  {
    LineEnds(encode(v));
    SplitGlues(text, encode(v) + "\n");
    assert Append(encode, text, v) == text + (encode(v) + "\n");
    assert [encode(v), []][1..] == [[]];
  }

  lemma PieceParses(parse: string -> Option<Line>, text: string)
    ensures var raws := Split(text);
      Inbox(parse, text) == Parsed(parse, raws[..|raws| - 1]) + Parsed(parse, [LastPiece(text)])
  {
    var raws := Split(text);
    ParsedJoins(parse, raws[..|raws| - 1], [LastPiece(text)]);
    assert raws == raws[..|raws| - 1] + [LastPiece(text)];
  }

  lemma ParsedOne(parse: string -> Option<Line>, raw: string)
    ensures Parsed(parse, [raw]) == (if raw != [] && parse(raw).Some? then [parse(raw).value] else [])
  {
    var raws: seq<string> := [raw];
    assert raws[1..] == [];
  }

  lemma AppendedInbox(encode: Line -> string, parse: string -> Option<Line>, text: string, v: Line)
    requires Codec(encode, parse)
    ensures var raws := Split(text);
      Inbox(parse, Append(encode, text, v))
          == Parsed(parse, raws[..|raws| - 1]) + Parsed(parse, [LastPiece(text) + encode(v)])
  {
    var raws := Split(text);
    var glued := LastPiece(text) + encode(v);
    AppendToPiece(encode, parse, text, v);
    ParsedJoins(parse, raws[..|raws| - 1], [glued, []]);
    ParsedJoins(parse, [glued], [[]]);
    ParsedOne(parse, []);
    assert [glued, []] == [glued] + [[]];
  }

  /**
   * An append adds its line and keeps the others exactly when the file ends with a newline, or what follows its last
   * newline was no line and still makes the new one when it is put before it.
   */
  lemma AppendAddsExactlyWhen(encode: Line -> string, parse: string -> Option<Line>, text: string, v: Line)
    requires Codec(encode, parse)
    ensures var piece := LastPiece(text);
      Inbox(parse, Append(encode, text, v)) == Inbox(parse, text) + [v]
      <==> piece == [] || (parse(piece).None? && parse(piece + encode(v)) == Some(v))
  {
    var raws := Split(text);
    var piece := LastPiece(text);
    AppendedInbox(encode, parse, text, v);
    PieceParses(parse, text);
    ParsedOne(parse, piece);
    ParsedOne(parse, piece + encode(v));
    assert parse(encode(v)) == Some(v);
    if piece == [] {
      assert piece + encode(v) == encode(v);
    }
    GluedOrNot(Parsed(parse, raws[..|raws| - 1]), Parsed(parse, [piece]), Parsed(parse, [piece + encode(v)]), v);
  }

  lemma GluedOrNot(head: seq<Line>, was: seq<Line>, glued: seq<Line>, v: Line)
    requires |was| <= 1 && |glued| <= 1
    ensures head + glued == head + was + [v] <==> was == [] && glued == [v]
  {
    if head + glued == head + was + [v] {
      assert |glued| == |was| + 1;
      assert was == [] && head + was == head;
      assert (head + glued)[|head|] == glued[0] && (head + [v])[|head|] == v;
    } else if was == [] {
      assert head + was == head;
    }
  }

  /** Where two values on one line do not parse, an answer appended to one that lost its newline loses both. */
  lemma GluedLinesAreLost(encode: Line -> string, parse: string -> Option<Line>, u: Line, v: Line)
    requires Codec(encode, parse) && parse(encode(u) + encode(v)) == None
    ensures Inbox(parse, encode(u)) == [u] && Inbox(parse, Append(encode, encode(u), v)) == []
  {
    SplitOne(encode(u));
    var raws: seq<string> := [encode(u)];
    assert raws[..0] == [] && Parsed(parse, raws[..0]) == [];
    assert parse(encode(u)) == Some(u);
    ParsedOne(parse, encode(u));
    AppendedInbox(encode, parse, encode(u), v);
    ParsedOne(parse, encode(u) + encode(v));
  }

  // ---- Runs of appends and drains ----

  /** Every line still to be seen to, in the order it will be written: kept so far, not yet judged, appended since. */
  function Live(parse: string -> Option<Line>, s: State): seq<Line> {
    match s.drain
    case None => Inbox(parse, s.text)
    case Some(d) =>
      d.keep + (if d.at <= |d.lines| then d.lines[d.at..]
          else []) + Inbox(parse, if d.size <= |s.text| then s.text[d.size..] else [])
  }

  /** The drain's snapshot is the beginning of the file still, and what it keeps is unchanged until it says so. */
  predicate Inv(parse: string -> Option<Line>, s: State) {
    && EndsWithNewline(s.text)
    && (s.drain.Some? ==>
      var d := s.drain.value;
      && d.size <= |s.text| && d.at <= |d.lines|
      && EndsWithNewline(s.text[..d.size]) && d.lines == Inbox(parse, s.text[..d.size])
      && (!d.changed ==> d.keep == d.lines[..d.at]))
  }

  /** A drain keeps what it has read and nothing else. */
  predicate KeepsOwn(s: State) {
    s.drain.Some? ==>
      var d := s.drain.value;
      d.at <= |d.lines| && Bodies(d.keep) <= Bodies(d.lines[..d.at])
  }

  lemma AppendBehind(encode: Line -> string, text: string, v: Line, size: nat)
    requires size <= |text|
    ensures |Append(encode, text, v)| >= size && Append(encode, text, v)[..size] == text[..size]
    ensures Append(encode, text, v)[size..] == Append(encode, text[size..], v)
  {
  }

  lemma EndOfRest(text: string, size: nat)
    requires size <= |text| && EndsWithNewline(text)
    ensures EndsWithNewline(text[size..])
  {
  }

  lemma AppendKeepsInv(encode: Line -> string, parse: string -> Option<Line>, s: State, v: Line)
    requires Codec(encode, parse) && Inv(parse, s)
    ensures Inv(parse, Step(encode, parse, s, AppendLine(v)))
  {
    AppendAdds(encode, parse, s.text, v);
    if s.drain.Some? {
      AppendBehind(encode, s.text, v, s.drain.value.size);
    }
  }

  lemma OneMoreBehind(a: seq<Line>, b: seq<Line>, c: seq<Line>, v: Line)
    ensures a + b + (c + [v]) == a + b + c + [v]
  {
  }

  /** What was appended since the snapshot grows with the file. */
  lemma AppendToRest(encode: Line -> string, parse: string -> Option<Line>, text: string, v: Line, size: nat)
    requires Codec(encode, parse) && EndsWithNewline(text) && size <= |text|
    ensures |Append(encode, text, v)| >= size
    ensures Inbox(parse, Append(encode, text, v)[size..]) == Inbox(parse, text[size..]) + [v]
  {
    AppendBehind(encode, text, v, size);
    EndOfRest(text, size);
    AppendAdds(encode, parse, text[size..], v);
  }

  lemma AppendStep(encode: Line -> string, parse: string -> Option<Line>, s: State, v: Line)
    requires Codec(encode, parse) && Inv(parse, s)
    ensures Live(parse, Step(encode, parse, s, AppendLine(v))) == Live(parse, s) + [v]
  {
    match s.drain
    case None => AppendAdds(encode, parse, s.text, v);
    case Some(d) =>
      AppendToRest(encode, parse, s.text, v, d.size);
      OneMoreBehind(d.keep, d.lines[d.at..], Inbox(parse, s.text[d.size..]), v);
  }

  lemma NothingYet(lines: seq<Line>, text: string)
    ensures [] + lines[0..] + [] == lines
    ensures text[..|text|] == text && text[|text|..] == []
  {
  }

  lemma BeginStep(encode: Line -> string, parse: string -> Option<Line>, s: State)
    requires Inv(parse, s)
    ensures Inv(parse, Step(encode, parse, s, Begin))
    ensures Live(parse, Step(encode, parse, s, Begin)) == Live(parse, s)
  {
    if s.drain.None? {
      var lines := Inbox(parse, s.text);
      NothingYet(lines, s.text);
      BlankIsNothing(parse);
      if lines != [] {
        BeginDrain(encode, parse, s, lines);
      }
    }
  }

  lemma BeginDrain(encode: Line -> string, parse: string -> Option<Line>, s: State, lines: seq<Line>)
    requires Inv(parse, s) && s.drain.None? && lines == Inbox(parse, s.text) && lines != []
    requires s.text[..|s.text|] == s.text && Inbox(parse, s.text[|s.text|..]) == [] && [] + lines[0..] + [] == lines
    ensures var next := Step(encode, parse, s, Begin);
      next == s.(drain := Some(Drain(lines, |s.text|, 0, [], false))) && Inv(parse, next) && Live(parse, next) == lines
  {
    var none: seq<Line> := [];
    assert lines[..0] == none;
  }

  lemma NextKeepsInv(encode: Line -> string, parse: string -> Option<Line>, s: State, outcome: Outcome)
    requires Inv(parse, s)
    ensures Inv(parse, Step(encode, parse, s, Next(outcome)))
  {
    if s.drain.Some? && s.drain.value.at < |s.drain.value.lines| {
      var d := s.drain.value;
      assert d.lines[..d.at + 1] == d.lines[..d.at] + [d.lines[d.at]];
    }
  }

  lemma Regroup(k: multiset<int>, v: multiset<int>, stays: multiset<int>, goes: multiset<int>, r: multiset<int>,
      t: multiset<int>)
    requires stays + goes == v
    ensures k + (v + r) + t == (k + stays) + r + t + goes
  {
  }

  lemma BodiesJoin3(a: seq<Line>, b: seq<Line>, c: seq<Line>)
    ensures Bodies(a + b + c) == Bodies(a) + Bodies(b) + Bodies(c)
  {
    BodiesJoin(a + b, c);
    BodiesJoin(a, b);
  }

  /** The line after the kept ones is judged: kept itself, or gone. */
  lemma JudgedBalances(keep: seq<Line>, v: Line, stays: seq<Line>, rest: seq<Line>, tail: seq<Line>)
    requires stays == [] || (|stays| == 1 && stays[0].body == v.body)
    ensures Bodies(keep + ([v] + rest) + tail) ==
      Bodies((keep + stays) + rest + tail) + (if stays == [] then multiset{v.body} else multiset{})
  {
    BodiesJoin3(keep, [v] + rest, tail);
    BodiesJoin([v], rest);
    BodiesOne(v);
    BodiesJoin3(keep + stays, rest, tail);
    BodiesJoin(keep, stays);
    if stays != [] {
      assert stays == [stays[0]];
      BodiesOne(stays[0]);
    }
    var goes := if stays == [] then multiset{v.body} else multiset{};
    Regroup(Bodies(keep), multiset{v.body}, Bodies(stays), goes, Bodies(rest), Bodies(tail));
  }

  lemma GoneBalances(a: multiset<int>, b: multiset<int>, gone: multiset<int>, goes: multiset<int>)
    requires a == b + goes
    ensures b + (gone + goes) == a + gone
  {
  }

  /** A judged line is kept, perhaps with one more attempt, or it is gone. */
  lemma NextStep(encode: Line -> string, parse: string -> Option<Line>, s: State, outcome: Outcome)
    requires Inv(parse, s)
    ensures Accounted(parse, Step(encode, parse, s, Next(outcome))) == Accounted(parse, s)
  {
    if s.drain.Some? && s.drain.value.at < |s.drain.value.lines| {
      JudgedStep(encode, parse, s, outcome);
      var v := s.drain.value.lines[s.drain.value.at];
      var fate := Judge(v, outcome);
      var next := Step(encode, parse, s, Next(outcome));
      LiveNext(encode, parse, s, outcome);
      GoneGrows(s.gone, v, fate);
      GoneBalances(Bodies(Live(parse, s)), Bodies(Live(parse, next)), Gone(s.gone),
                   if fate.Kept? then multiset{} else multiset{v.body});
    }
  }

  lemma JudgedStep(encode: Line -> string, parse: string -> Option<Line>, s: State, outcome: Outcome)
    requires Inv(parse, s) && s.drain.Some? && s.drain.value.at < |s.drain.value.lines|
    ensures var v := s.drain.value.lines[s.drain.value.at];
      Bodies(Live(parse, s)) == Bodies(Live(parse, Step(encode, parse, s, Next(outcome))))
        + (if Judge(v, outcome).Kept? then multiset{} else multiset{v.body})
  {
    var d := s.drain.value;
    var v, rest, tail := d.lines[d.at], d.lines[d.at + 1..], Inbox(parse, s.text[d.size..]);
    var fate := Judge(v, outcome);
    LiveNow(parse, s);
    LiveNext(encode, parse, s, outcome);
    assert d.keep + [] == d.keep;
    JudgedBalances(d.keep, v, if fate.Kept? then [fate.line] else [], rest, tail);
  }

  lemma LiveNow(parse: string -> Option<Line>, s: State)
    requires Inv(parse, s) && s.drain.Some? && s.drain.value.at < |s.drain.value.lines|
    ensures var d := s.drain.value;
      Live(parse, s) == d.keep + ([d.lines[d.at]] + d.lines[d.at + 1..]) + Inbox(parse, s.text[d.size..])
  {
    var d := s.drain.value;
    assert d.lines[d.at..] == [d.lines[d.at]] + d.lines[d.at + 1..];
  }

  lemma LiveNext(encode: Line -> string, parse: string -> Option<Line>, s: State, outcome: Outcome)
    requires Inv(parse, s) && s.drain.Some? && s.drain.value.at < |s.drain.value.lines|
    ensures var d := s.drain.value;
      var fate := Judge(d.lines[d.at], outcome);
      var next := Step(encode, parse, s, Next(outcome));
      && Live(parse, next)
        == (if fate.Kept? then d.keep + [fate.line] else d.keep) + d.lines[d.at + 1..] + Inbox(parse, s.text[d.size..])
      && next.gone == (if fate.Kept? then s.gone else s.gone + [(d.lines[d.at], fate)])
  {
    var d := s.drain.value;
    var e, next := JudgeNext(d, outcome), Step(encode, parse, s, Next(outcome));
    assert next.drain == Some(e) && next.text == s.text;
    assert e.lines == d.lines && e.size == d.size && e.at == d.at + 1;
  }

  lemma FileOfDrain(parse: string -> Option<Line>, s: State)
    requires Inv(parse, s) && s.drain.Some?
    ensures Inbox(parse, s.text) == s.drain.value.lines + Inbox(parse, s.text[s.drain.value.size..])
  {
    var d := s.drain.value;
    InboxJoins(parse, s.text[..d.size], s.text[d.size..]);
    assert s.text == s.text[..d.size] + s.text[d.size..];
  }

  lemma AllJudged(parse: string -> Option<Line>, s: State)
    requires Inv(parse, s) && s.drain.Some? && s.drain.value.at == |s.drain.value.lines|
    ensures Live(parse, s) == s.drain.value.keep + Inbox(parse, s.text[s.drain.value.size..])
    ensures !s.drain.value.changed ==> s.drain.value.keep == s.drain.value.lines
  {
    var d := s.drain.value;
    assert d.keep + d.lines[d.at..] == d.keep && d.lines[..d.at] == d.lines;
  }

  lemma FinishStep(encode: Line -> string, parse: string -> Option<Line>, s: State)
    requires Codec(encode, parse) && Inv(parse, s)
    ensures var next := Step(encode, parse, s, Finish(true));
      Inv(parse, next) && Live(parse, next) == Live(parse, s)
  {
    if s.drain.Some? && s.drain.value.at == |s.drain.value.lines| {
      var d := s.drain.value;
      AllJudged(parse, s);
      if d.changed {
        RewriteKeepsTheRest(encode, parse, s.text, d.keep, d.size);
      } else {
        FileOfDrain(parse, s);
      }
    }
  }

  // ---- Conservation ----

  /** What the lines answer, counted. */
  function Bodies(lines: seq<Line>): multiset<int> {
    if lines == [] then multiset{} else multiset{lines[0].body} + Bodies(lines[1..])
  }

  function Gone(gone: seq<(Line, Fate)>): multiset<int> {
    if gone == [] then multiset{} else Gone(gone[..|gone| - 1]) + multiset{gone[|gone| - 1].0.body}
  }

  lemma GoneGrows(gone: seq<(Line, Fate)>, v: Line, fate: Fate)
    ensures Gone(gone + [(v, fate)]) == Gone(gone) + multiset{v.body}
  {
    assert (gone + [(v, fate)])[..|gone|] == gone;
  }

  lemma {:induction false} BodiesJoin(a: seq<Line>, b: seq<Line>)
    ensures Bodies(a + b) == Bodies(a) + Bodies(b)
    decreases |a|
  {
    if a == [] {
      assert a + b == b;
    } else {
      assert (a + b)[1..] == a[1..] + b;
      BodiesJoin(a[1..], b);
    }
  }

  lemma BodiesOne(v: Line)
    ensures Bodies([v]) == multiset{v.body}
  {
    assert [v][1..] == [];
  }

  /** Everything that was in the inbox or came to it, counted: still to be seen to, or gone. */
  function Accounted(parse: string -> Option<Line>, s: State): multiset<int> {
    Bodies(Live(parse, s)) + Gone(s.gone)
  }

  /** The drain ends and the file stays as it was when the drain began, but for what was appended. */
  predicate Abandons(s: State, event: Event) {
    s.drain.Some? && (event.Crash? || (event == Finish(false) && s.drain.value.at >= |s.drain.value.lines|))
  }

  /** What was gone already and is in the inbox again, because the drain that judged it never wrote its file. */
  function JudgedAgain(s: State, event: Event): multiset<int> {
    if !Abandons(s, event) then multiset{}
    else
      var d := s.drain.value;
      Bodies(if d.at <= |d.lines| then d.lines[..d.at] else d.lines) - Bodies(d.keep)
  }

  /** One of its lines was gone by then. */
  predicate Forgets(s: State, event: Event) {
    Abandons(s, event) && |s.drain.value.keep| < s.drain.value.at
  }

  function AllJudgedAgain(encode: Line -> string,
      parse: string -> Option<Line>, s: State, events: seq<Event>): multiset<int>
    decreases events
  {
    if events == [] then multiset{}
    else JudgedAgain(s, events[0]) + AllJudgedAgain(encode, parse, Step(encode, parse, s, events[0]), events[1..])
  }

  predicate EverForgets(encode: Line -> string, parse: string -> Option<Line>, s: State, events: seq<Event>)
    decreases events
  {
    events != []
        && (Forgets(s, events[0]) || EverForgets(encode, parse, Step(encode, parse, s, events[0]), events[1..]))
  }

  /** One line more is read, and it is kept or not. */
  lemma KeepsOneMore(keep: seq<Line>, read: seq<Line>, v: Line, outcome: Outcome)
    requires Bodies(keep) <= Bodies(read)
    ensures Bodies(keep) <= Bodies(read + [v])
    ensures Judge(v, outcome).Kept? ==> Bodies(keep + [Judge(v, outcome).line]) <= Bodies(read + [v])
  {
    BodiesJoin(read, [v]);
    BodiesOne(v);
    if Judge(v, outcome).Kept? {
      BodiesJoin(keep, [Judge(v, outcome).line]);
      BodiesOne(Judge(v, outcome).line);
    }
  }

  lemma NextKeepsOwn(d: Drain, outcome: Outcome)
    requires d.at < |d.lines| && Bodies(d.keep) <= Bodies(d.lines[..d.at])
    ensures var next := JudgeNext(d, outcome);
            next.at <= |next.lines| && Bodies(next.keep) <= Bodies(next.lines[..next.at])
  {
    assert d.lines[..d.at + 1] == d.lines[..d.at] + [d.lines[d.at]];
    KeepsOneMore(d.keep, d.lines[..d.at], d.lines[d.at], outcome);
  }

  lemma KeepsOwnStays(encode: Line -> string, parse: string -> Option<Line>, s: State, event: Event)
    requires KeepsOwn(s)
    ensures KeepsOwn(Step(encode, parse, s, event))
  {
    match event
    case AppendLine(_) =>
    case Begin =>
    case Next(outcome) =>
      if s.drain.Some? && s.drain.value.at < |s.drain.value.lines| {
        NextKeepsOwn(s.drain.value, outcome);
      }
    case Finish(_) =>
    case Crash =>
  }

  lemma {:induction false} BodiesCount(lines: seq<Line>)
    ensures |Bodies(lines)| == |lines|
  {
    if lines != [] {
      BodiesCount(lines[1..]);
    }
  }

  lemma LessIsFewer(a: multiset<int>, b: multiset<int>)
    requires a <= b
    ensures b == a + (b - a)
    ensures b - a == multiset{} <==> |a| == |b|
  {
    assert b == a + (b - a);
    if |a| == |b| {
      assert |b - a| == 0;
    }
  }

  /**
   * Something is judged again exactly when a line was gone: a drain keeps one line of its own or none for each it
   * read.
   */
  lemma ForgettingJudgesAgain(s: State, event: Event)
    requires KeepsOwn(s)
    ensures JudgedAgain(s, event) == multiset{} <==> !Forgets(s, event)
  {
    if Abandons(s, event) {
      var d := s.drain.value;
      BodiesCount(d.keep);
      BodiesCount(d.lines[..d.at]);
      LessIsFewer(Bodies(d.keep), Bodies(d.lines[..d.at]));
    }
  }

  lemma FileAgain(parse: string -> Option<Line>, s: State)
    requires Inv(parse, s) && s.drain.Some?
    ensures var d := s.drain.value;
      Bodies(Inbox(parse, s.text))
          == Bodies(d.lines[..d.at]) + Bodies(d.lines[d.at..]) + Bodies(Inbox(parse, s.text[d.size..]))
  {
    var d := s.drain.value;
    FileOfDrain(parse, s);
    assert d.lines == d.lines[..d.at] + d.lines[d.at..];
    BodiesJoin3(d.lines[..d.at], d.lines[d.at..], Inbox(parse, s.text[d.size..]));
  }

  lemma LiveBodies(parse: string -> Option<Line>, s: State)
    requires Inv(parse, s) && s.drain.Some?
    ensures var d := s.drain.value;
      Bodies(Live(parse, s)) == Bodies(d.keep) + Bodies(d.lines[d.at..]) + Bodies(Inbox(parse, s.text[d.size..]))
  {
    var d := s.drain.value;
    BodiesJoin3(d.keep, d.lines[d.at..], Inbox(parse, s.text[d.size..]));
  }

  lemma Restored(kept: multiset<int>, read: multiset<int>, rest: multiset<int>, tail: multiset<int>)
    requires kept <= read
    ensures read + rest + tail == (kept + rest + tail) + (read - kept)
  {
  }

  lemma AbandonStep(encode: Line -> string, parse: string -> Option<Line>, s: State, event: Event)
    requires Inv(parse, s) && KeepsOwn(s) && Abandons(s, event)
    ensures var next := Step(encode, parse, s, event);
      next == s.(drain := None) && Inv(parse, next)
      && Bodies(Live(parse, next)) == Bodies(Live(parse, s)) + JudgedAgain(s, event)
  {
    var d := s.drain.value;
    FileAgain(parse, s);
    LiveBodies(parse, s);
    Restored(Bodies(d.keep), Bodies(d.lines[..d.at]), Bodies(d.lines[d.at..]), Bodies(Inbox(parse, s.text[d.size..])));
  }

  function Appended(event: Event): multiset<int> {
    if event.AppendLine? then multiset{event.line.body} else multiset{}
  }

  lemma AppendAccounts(encode: Line -> string, parse: string -> Option<Line>, s: State, v: Line)
    requires Codec(encode, parse) && Inv(parse, s)
    ensures var next := Step(encode, parse, s, AppendLine(v));
      Inv(parse, next) && Accounted(parse, next) == Accounted(parse, s) + multiset{v.body}
  {
    AppendKeepsInv(encode, parse, s, v);
    AppendStep(encode, parse, s, v);
    BodiesJoin(Live(parse, s), [v]);
    BodiesOne(v);
  }

  lemma WrittenStep(encode: Line -> string, parse: string -> Option<Line>, s: State, event: Event)
    requires Codec(encode, parse) && Inv(parse, s) && !Abandons(s, event) && !event.AppendLine?
    ensures var next := Step(encode, parse, s, event);
      Inv(parse, next) && Accounted(parse, next) == Accounted(parse, s)
  {
    match event
    case Begin => BeginStep(encode, parse, s);
    case Next(outcome) =>
      NextKeepsInv(encode, parse, s, outcome);
      NextStep(encode, parse, s, outcome);
    case Finish(written) => FinishStep(encode, parse, s);
    case Crash => assert Step(encode, parse, s, event) == s;
  }

  lemma StepAccounts(encode: Line -> string, parse: string -> Option<Line>, s: State, event: Event)
    requires Codec(encode, parse) && Inv(parse, s) && KeepsOwn(s)
    ensures var next := Step(encode, parse, s, event);
      && Inv(parse, next) && KeepsOwn(next)
      && Accounted(parse, next) == Accounted(parse, s) + Appended(event) + JudgedAgain(s, event)
  {
    KeepsOwnStays(encode, parse, s, event);
    if Abandons(s, event) {
      AbandonStep(encode, parse, s, event);
    } else if event.AppendLine? {
      AppendAccounts(encode, parse, s, event.line);
    } else {
      WrittenStep(encode, parse, s, event);
    }
  }

  function Appends(events: seq<Event>): multiset<int> {
    if events == [] then multiset{} else Appended(events[0]) + Appends(events[1..])
  }

  /**
   * Over any interleaving of appends, drains, failed rewrites and crashes, every answer that was in the inbox or came
   * to it is applied, refused, dropped or waiting still; and is so once, but for what is judged again because a drain
   * did not write its file.
   */
  lemma {:induction false} NothingIsLost(encode: Line -> string,
      parse: string -> Option<Line>, s: State, events: seq<Event>)
    requires Codec(encode, parse) && Inv(parse, s) && KeepsOwn(s)
    ensures Inv(parse, Run(encode, parse, s, events))
    ensures Accounted(parse, Run(encode, parse, s, events))
         == Accounted(parse, s) + Appends(events) + AllJudgedAgain(encode, parse, s, events)
    decreases |events|
  {
    if events != [] {
      StepAccounts(encode, parse, s, events[0]);
      NothingIsLost(encode, parse, Step(encode, parse, s, events[0]), events[1..]);
    }
  }

  /** Exactly the runs in which no drain ends unwritten with a line of it gone see to every answer exactly once. */
  lemma {:induction false} JudgedOnceExactlyWhen(encode: Line -> string,
      parse: string -> Option<Line>, s: State, events: seq<Event>)
    requires Codec(encode, parse) && Inv(parse, s) && KeepsOwn(s)
    ensures Accounted(parse, Run(encode, parse, s, events)) == Accounted(parse, s) + Appends(events)
      <==> !EverForgets(encode, parse, s, events)
  {
    NothingIsLost(encode, parse, s, events);
    AgainExactlyWhen(encode, parse, s, events);
    NothingMore(Accounted(parse, s) + Appends(events), AllJudgedAgain(encode, parse, s, events));
  }

  lemma NothingMore(a: multiset<int>, b: multiset<int>)
    ensures a + b == a <==> b == multiset{}
  {
    assert |a + b| == |a| + |b|;
  }

  lemma {:induction false} AgainExactlyWhen(encode: Line -> string,
      parse: string -> Option<Line>, s: State, events: seq<Event>)
    requires Codec(encode, parse) && Inv(parse, s) && KeepsOwn(s)
    ensures AllJudgedAgain(encode, parse, s, events) == multiset{} <==> !EverForgets(encode, parse, s, events)
    decreases |events|
  {
    if events != [] {
      var next := Step(encode, parse, s, events[0]);
      ForgettingJudgesAgain(s, events[0]);
      StepAccounts(encode, parse, s, events[0]);
      AgainExactlyWhen(encode, parse, next, events[1..]);
      NothingMore(multiset{}, AllJudgedAgain(encode, parse, next, events[1..]));
      SumIsEmpty(JudgedAgain(s, events[0]), AllJudgedAgain(encode, parse, next, events[1..]));
    }
  }

  lemma SumIsEmpty(a: multiset<int>, b: multiset<int>)
    ensures a + b == multiset{} <==> a == multiset{} && b == multiset{}
  {
    assert |a + b| == |a| + |b|;
  }

  lemma RunFirst(encode: Line -> string, parse: string -> Option<Line>, s: State, event: Event, more: seq<Event>)
    ensures Run(encode, parse, s, [event] + more) == Run(encode, parse, Step(encode, parse, s, event), more)
  {
    assert ([event] + more)[1..] == more;
  }

  lemma DrainOfOne(encode: Line -> string, parse: string -> Option<Line>, s: State, v: Line, written: bool)
    requires v.valid && s.drain.None? && Inbox(parse, s.text) == [v]
    ensures var begun := Step(encode, parse, s, Begin);
      var judged := Step(encode, parse, begun, Next(Applied));
      Step(encode, parse, judged, Finish(written))
        == s.(text := if written then [] else s.text, gone := s.gone + [(v, WasApplied)])
  {
    var d := Drain([v], |s.text|, 0, [], false);
    assert Step(encode, parse, s, Begin) == s.(drain := Some(d));
    assert JudgeNext(d, Applied) == Drain([v], |s.text|, 1, [], true);
    assert Rewrite(encode, s.text, [], |s.text|) == [];
  }

  lemma DrainEvents(written: bool, more: seq<Event>)
    ensures [Begin] + ([Next(Applied)] + ([Finish(written)] + more)) == [Begin, Next(Applied), Finish(written)] + more
  {
  }

  /**
   * One drain of a file of one line, which is applied; the rewrite leaves no file, or fails and leaves it as it was.
   */
  lemma AppliedOnce(encode: Line -> string,
      parse: string -> Option<Line>, s: State, v: Line, written: bool, more: seq<Event>)
    requires v.valid && s.drain.None? && Inbox(parse, s.text) == [v]
    ensures Run(encode, parse, s, [Begin, Next(Applied), Finish(written)] + more)
         == Run(encode, parse, s.(text := if written then [] else s.text, gone := s.gone + [(v, WasApplied)]), more)
  {
    var begun := Step(encode, parse, s, Begin);
    var judged := Step(encode, parse, begun, Next(Applied));
    DrainOfOne(encode, parse, s, v, written);
    RunFirst(encode, parse, s, Begin, [Next(Applied)] + ([Finish(written)] + more));
    RunFirst(encode, parse, begun, Next(Applied), [Finish(written)] + more);
    RunFirst(encode, parse, judged, Finish(written), more);
    DrainEvents(written, more);
  }

  lemma TwoDrains()
    ensures [Begin, Next(Applied), Finish(false)] + [Begin, Next(Applied), Finish(true)]
         == [Begin, Next(Applied), Finish(false), Begin, Next(Applied), Finish(true)]
  {
  }

  /** The run that shows it: an answer is applied, its drain's rewrite fails, and the next drain applies it again. */
  lemma JudgedTwice(encode: Line -> string, parse: string -> Option<Line>, v: Line)
    requires Codec(encode, parse) && v.valid
    ensures var events := [Begin, Next(Applied), Finish(false), Begin, Next(Applied), Finish(true)];
      var s := State(encode(v) + "\n", None, [], []);
      Run(encode, parse, s, events) == State([], None, [], [(v, WasApplied), (v, WasApplied)])
  {
    var text := encode(v) + "\n";
    OneLineInbox(encode, parse, v);
    var again := [Begin, Next(Applied), Finish(true)];
    AppliedOnce(encode, parse, State(text, None, [], []), v, false, again);
    AppliedOnce(encode, parse, State(text, None, [], [(v, WasApplied)]), v, true, []);
    TwoDrains();
    assert again + [] == again;
  }
}
