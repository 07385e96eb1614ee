/** What a line of an owner's reply says, by its characters; and what is left of a reply that is one answer. */
module ContactReading {
  import opened Basics
  import opened Jsonl
  import opened ContactFormat

  // ---- Spaces and keys ----

  predicate AllSpaces(s: string) {
    forall k | 0 <= k < |s| :: IsSpace(s[k])
  }

  /** Some text that begins with no space and stays on its line. */
  predicate IsBody(s: string) {
    s != [] && !IsSpace(s[0]) && OneLine(s)
  }

  lemma {:induction false} TrimGap(gap: string, rest: string)
    requires AllSpaces(gap) && (rest != [] ==> !IsSpace(rest[0]))
    ensures TrimStart(gap + rest) == rest
    decreases |gap|
  {
    if gap == [] {
      assert gap + rest == rest;
    } else {
      assert (gap + rest)[1..] == gap[1..] + rest;
      TrimGap(gap[1..], rest);
    }
  }

  lemma GapOf(s: string) returns (gap: string)
    ensures AllSpaces(gap) && s == gap + TrimStart(s) && (TrimStart(s) != [] ==> !IsSpace(TrimStart(s)[0]))
    ensures s != [] && IsSpace(s[0]) ==> gap != []
  {
    var i := TrimStartSays(s);
    gap := s[..i];
    assert s == s[..i] + s[i..];
  }

  lemma {:induction false} DropTrailingSays(s: string) returns (j: nat)
    ensures j <= |s| && DropTrailing(s) == s[..j] && (j > 0 ==> !IsTrailing(s[j - 1]))
    ensures forall k | j <= k < |s| :: IsTrailing(s[k])
    decreases |s|
  {
    j := |s|;
    if s != [] && IsTrailing(s[|s| - 1]) {
      j := DropTrailingSays(s[..|s| - 1]);
      assert s[..|s| - 1][..j] == s[..j];
    } else {
      assert s[..j] == s;
    }
  }

  /** What is compared: the text in small letters, without spaces in front and spaces and stops behind. */
  lemma MatchKeySays(s: string) returns (i: nat, j: nat)
    ensures i <= j <= |s| && MatchKey(s) == Lower(s[i..j])
    ensures forall k | 0 <= k < i :: IsSpace(s[k])
    ensures forall k | j <= k < |s| :: IsSpace(s[k]) || s[k] in ".!?,;:"
    ensures i < j ==> !(IsSpace(s[j - 1]) || s[j - 1] in ".!?,;:") && !IsSpace(s[i])
  {
    var a, b := TrimSays(s);
    var n := DropTrailingSays(s[a..b]);
    i, j := a, a + n;
    assert s[a..b][..n] == s[i..j];
    forall k | j <= k < |s| ensures IsSpace(s[k]) || s[k] in ".!?,;:" {
      if k < b {
        assert s[k] == s[a..b][k - a];
      }
    }
  }

  // ---- Tokens and numbers ----

  /** `#`, six letters or digits, and then nothing, or spaces and the rest of the line. */
  predicate TokenedAs(line: string, token: string, gap: string, rest: string) {
    && |token| == 6 && (forall k | 0 <= k < 6 :: IsAlphanumeric(token[k]))
    && line == "#" + token + gap + rest && AllSpaces(gap) && (gap == [] ==> rest == [])
    && (rest != [] ==> IsBody(rest))
  }

  lemma TokenFound(line: string, token: string, rest: string) returns (gap: string)
    requires LineToken(line) == Some((token, rest))
    ensures TokenedAs(line, token, gap, rest)
  {
    gap := GapOf(line[7..]);
    assert line == "#" + line[1..7] + line[7..];
    assert "#" + token + (gap + rest) == "#" + token + gap + rest;
  }

  lemma TokenIsFound(line: string, token: string, gap: string, rest: string)
    requires TokenedAs(line, token, gap, rest)
    ensures LineToken(line) == Some((token, rest))
  {
    assert line[1..7] == token && line[7..] == gap + rest;
    forall k | 1 <= k < 7 ensures IsAlphanumeric(line[k]) {
      assert line[k] == token[k - 1];
    }
    TrimGap(gap, rest);
    if gap != [] {
      assert line[7] == gap[0];
    }
  }

  /** A line's token and the rest behind it are read off exactly where it has that form. */
  lemma TokenSays(line: string, token: string, rest: string)
    ensures LineToken(line) == Some((token, rest)) <==> exists gap :: TokenedAs(line, token, gap, rest)
  {
    if LineToken(line) == Some((token, rest)) {
      var gap := TokenFound(line, token, rest);
    } else if gap :| TokenedAs(line, token, gap, rest) {
      TokenIsFound(line, token, gap, rest);
    }
  }

  /** One or two digits of this value. */
  predicate IsNumber(digits: string, n: nat) {
    || (|digits| == 1 && IsDigit(digits[0]) && n == DigitValue(digits[0]))
    || (|digits| == 2 && IsDigit(digits[0]) && IsDigit(digits[1])
        && n == 10 * DigitValue(digits[0]) + DigitValue(digits[1]))
  }

  /** A number, perhaps a point or a bracket, spaces, and the answer. */
  predicate NumberedAs(s: string, n: nat, digits: string, mark: string, gap: string, body: string) {
    && IsNumber(digits, n) && (mark == [] || mark == "." || mark == ")") && gap != [] && AllSpaces(gap) && IsBody(body)
    && s == digits + (mark + (gap + body))
  }

  lemma MarkIsPassed(mark: string, rest: string)
    requires mark == [] || mark == "." || mark == ")"
    requires rest != [] && IsSpace(rest[0])
    ensures AfterMark(mark + rest) == rest
  {
    if mark == [] {
      assert mark + rest == rest;
    } else {
      assert (mark + rest)[1..] == rest;
    }
  }

  lemma AnswerAfterNumber(n: nat, mark: string, gap: string, body: string)
    requires (mark == [] || mark == "." || mark == ")") && gap != [] && AllSpaces(gap) && IsBody(body)
    ensures AfterNumber(n, mark + (gap + body)) == Some((n, body))
  {
    assert (gap + body)[0] == gap[0];
    MarkIsPassed(mark, gap + body);
    TrimGap(gap, body);
  }

  lemma NumberIsFound(s: string, n: nat, digits: string, mark: string, gap: string, body: string)
    requires NumberedAs(s, n, digits, mark, gap, body)
    ensures Numbered(s) == Some((n, body))
  {
    var rest := mark + (gap + body);
    assert s[|digits|..] == rest;
    AnswerAfterNumber(n, mark, gap, body);
    if |digits| == 1 {
      assert s[1] == rest[0];
      assert rest[0] == if mark == [] then gap[0] else mark[0];
      SpaceIsNoDigit(rest[0]);
    } else {
      assert s[1] == digits[1];
    }
  }

  lemma SpaceIsNoDigit(c: char)
    ensures IsSpace(c) || c == '.' || c == ')' ==> !IsDigit(c)
  {
  }

  lemma MarkedAs(s: string) returns (mark: string)
    ensures (mark == [] || mark == "." || mark == ")") && s == mark + AfterMark(s)
  {
    if s != [] && (s[0] == '.' || s[0] == ')') {
      mark := s[..1];
      assert s == s[..1] + s[1..];
    } else {
      mark := [];
    }
  }

  lemma NumberFound(s: string, n: nat, body: string) returns (digits: string, mark: string, gap: string)
    requires Numbered(s) == Some((n, body))
    ensures NumberedAs(s, n, digits, mark, gap, body)
  {
    var d := if |s| > 1 && IsDigit(s[1]) then 2 else 1;
    digits := s[..d];
    mark := MarkedAs(s[d..]);
    gap := GapOf(AfterMark(s[d..]));
    assert s == s[..d] + s[d..];
  }

  /** An item's number and the answer behind it are read off exactly where the line has that form. */
  lemma NumberSays(s: string, n: nat, body: string)
    ensures Numbered(s) == Some((n, body)) <==> exists digits, mark, gap :: NumberedAs(s, n, digits, mark, gap, body)
  {
    if Numbered(s) == Some((n, body)) {
      var digits, mark, gap := NumberFound(s, n, body);
    } else if digits, mark, gap :| NumberedAs(s, n, digits, mark, gap, body) {
      NumberIsFound(s, n, digits, mark, gap, body);
    }
  }

  // ---- What a line says ----

  /** The item that a token or a number names: the first that has it. */
  predicate FirstWithToken(items: seq<Item>, token: string, i: nat) {
    i < |items| && items[i].token == token && forall k | 0 <= k < i :: items[k].token != token
  }

  predicate FirstWithNumber(items: seq<Item>, n: nat, i: nat) {
    i < |items| && items[i].n == n && forall k | 0 <= k < i :: items[k].n != n
  }

  predicate NoToken(items: seq<Item>, token: string) {
    forall k | 0 <= k < |items| :: items[k].token != token
  }

  predicate NoNumber(items: seq<Item>, n: nat) {
    forall k | 0 <= k < |items| :: items[k].n != n
  }

  lemma {:induction false} TokenNames(items: seq<Item>, token: string)
    ensures var i := ByToken(items, token);
            FirstWithToken(items, token, i) || (i == |items| && NoToken(items, token))
    decreases |items|
  {
    if items != [] && items[0].token != token {
      TokenNames(items[1..], token);
      assert forall k | 0 < k < |items| :: items[k] == items[1..][k - 1];
    }
  }

  lemma {:induction false} NumberNames(items: seq<Item>, n: nat)
    ensures var i := ByNumber(items, n);
            FirstWithNumber(items, n, i) || (i == |items| && NoNumber(items, n))
    decreases |items|
  {
    if items != [] && items[0].n != n {
      NumberNames(items[1..], n);
      assert forall k | 0 < k < |items| :: items[k] == items[1..][k - 1];
    }
  }

  /**
   * These words answer item i: some words that are no copy of its question, and, where they pick none of its options,
   * free text that no other item has as an option.
   */
  predicate Answers(items: seq<Item>, i: nat, rest: string, freeText: bool, answer: Answer) {
    && i < |items| && rest != [] && !IsItemHeader(items[i], rest)
    && answer == OptionOrText(items[i].options, rest)
    && (answer.Text? ==>
          freeText && forall j | 0 <= j < |items| && j != i :: OptionOrText(items[j].options, rest).Text?)
  }

  lemma AnswersSays(items: seq<Item>, i: nat, rest: string, freeText: bool, f: Found)
    requires i < |items|
    ensures AnswerFor(items, i, rest, freeText) == Some(f) <==>
              f.item == i && Answers(items, i, rest, freeText, f.answer)
  {
  }

  /** A line with an item's own token answers that item and no other, in free text too. */
  lemma OwnTokenSays(batch: Batch, threaded: bool, line: string, token: string, rest: string, i: nat, f: Found)
    requires LineToken(line) == Some((token, rest)) && FirstWithToken(batch.items, Upper(token), i)
    ensures LineAnswer(batch, threaded, line) == Some(f) <==>
              && IsToken(Upper(token)) && f.item == i && Answers(batch.items, i, rest, true, f.answer)
  {
    TokenNames(batch.items, Upper(token));
    AnswersSays(batch.items, i, rest, true, f);
  }

  /** The words behind a number answer the item of that number; words of no item's number answer an only item. */
  predicate ByNumberAnswers(items: seq<Item>, rest: string, freeText: bool, f: Found) {
    var numbered := Numbered(rest);
    if numbered.Some? && !NoNumber(items, numbered.value.0) then
      && FirstWithNumber(items, numbered.value.0, f.item)
      && Answers(items, f.item, numbered.value.1, freeText, f.answer)
    else |items| == 1 && f.item == 0 && Answers(items, 0, rest, true, f.answer)
  }

  lemma ByNumberSays(items: seq<Item>, rest: string, tokened: bool, f: Found)
    ensures AnswerByNumber(items, rest, tokened) == Some(f) <==> ByNumberAnswers(items, rest, tokened, f)
  {
    var numbered := Numbered(rest);
    if numbered.Some? {
      var i := ByNumber(items, numbered.value.0);
      NumberNames(items, numbered.value.0);
      if i < |items| {
        AnswersSays(items, i, numbered.value.1, tokened, f);
      }
    }
    if |items| == 1 {
      AnswersSays(items, 0, rest, true, f);
    }
  }

  /** A line with the batch's token answers by number, or the only item, in free text too. */
  lemma BatchTokenSays(batch: Batch, threaded: bool, line: string, token: string, rest: string, f: Found)
    requires LineToken(line) == Some((token, rest)) && NoToken(batch.items, Upper(token))
    ensures LineAnswer(batch, threaded, line) == Some(f) <==>
              && IsToken(Upper(token)) && Upper(token) == batch.token
              && ByNumberAnswers(batch.items, rest, true, f)
  {
    TokenNames(batch.items, Upper(token));
    ByNumberSays(batch.items, rest, true, f);
  }

  /** A line without a token answers by number, in a reply to a batch of more than one item, and picks options only. */
  lemma TokenlessSays(batch: Batch, threaded: bool, line: string, f: Found)
    requires LineToken(line).None?
    ensures LineAnswer(batch, threaded, line) == Some(f) <==>
              threaded && |batch.items| != 1 && ByNumberAnswers(batch.items, line, false, f)
  {
    ByNumberSays(batch.items, line, false, f);
  }

  /** The characters that end a line, and those of a word, by name. */
  lemma CharactersAre(c: char)
    ensures IsTerminator(c) <==> c in {'\n', '\r', '\U{2028}', '\U{2029}'}
    ensures IsDigit(c) <==> c in "0123456789"
    ensures IsAlphanumeric(c) <==>
              c in "0123456789" || c in "abcdefghijklmnopqrstuvwxyz" || c in "ABCDEFGHIJKLMNOPQRSTUVWXYZ"
  {
  }

  /** Small letters and capitals go together in their order; every other character stays. */
  lemma LettersGoTogether(k: nat)
    requires k < 26
    ensures var small, big := "abcdefghijklmnopqrstuvwxyz"[k], "ABCDEFGHIJKLMNOPQRSTUVWXYZ"[k];
            LowerChar(big) == small && UpperChar(small) == big && LowerChar(small) == small && UpperChar(big) == big
  {
  }

  lemma OthersStay(c: char)
    requires c !in "abcdefghijklmnopqrstuvwxyz" && c !in "ABCDEFGHIJKLMNOPQRSTUVWXYZ"
    ensures LowerChar(c) == c && UpperChar(c) == c
  {
  }

  /** The thirty-two characters of tokens: digits and letters, without I, L, O and U. */
  lemma TokenCharsAre(c: char)
    ensures IsTokenChar(c) <==> c in "0123456789ABCDEFGHJKMNPQRSTVWXYZ"
  {
  }

  /** A copy of the question begins with the item's case and a dash, behind the mark of an urgent one if it is there. */
  lemma HeaderSays(item: Item, tail: string)
    requires item.caseTitle != []
    ensures IsItemHeader(item, "[HIGH] " + (item.caseTitle + " \U{2014} " + tail))
    ensures !StartsWith(item.caseTitle, "[HIGH] ") && 7 <= |item.caseTitle| ==>
              IsItemHeader(item, item.caseTitle + " \U{2014} " + tail)
  {
    var title := item.caseTitle + " \U{2014} ";
    assert ("[HIGH] " + (title + tail))[7..] == title + tail;
    assert 7 <= |item.caseTitle| ==> (title + tail)[..7] == item.caseTitle[..7];
  }

  // ---- A reply that is one answer ----

  /** What of the lines before n is not quoted, trimmed, in order. */
  function OwnOf(lines: seq<string>, n: nat): seq<string>
    requires n <= |lines|
  {
    if n == 0 then []
    else OwnOf(lines, n - 1) + if StartsWith(TrimStart(lines[n - 1]), ">") then [] else [Trim(lines[n - 1])]
  }

  lemma OwnNext(lines: seq<string>, i: nat, quoteStarts: (seq<string>, nat) -> bool)
    requires i < |lines| && !quoteStarts(lines, i)
    ensures OwnOf(lines, i) + Unquoted(lines, i, quoteStarts)
         == OwnOf(lines, i + 1) + Unquoted(lines, i + 1, quoteStarts)
  {
    var more := Unquoted(lines, i + 1, quoteStarts);
    assert Unquoted(lines, i, quoteStarts) == Own(lines[i]) + more;
    assert OwnOf(lines, i + 1) == OwnOf(lines, i) + Own(lines[i]);
    assert OwnOf(lines, i) + (Own(lines[i]) + more) == (OwnOf(lines, i) + Own(lines[i])) + more;
  }

  /** The lines from i on up to n are read, and at n the quoted history starts or the lines end. */
  ghost predicate ReadTo(lines: seq<string>, i: nat, quoteStarts: (seq<string>, nat) -> bool, n: nat) {
    && i <= n <= |lines| && (n < |lines| ==> quoteStarts(lines, n))
    && forall k: nat | i <= k < n :: !quoteStarts(lines, k)
  }

  lemma {:induction false} ReadingEnds(lines: seq<string>, i: nat, quoteStarts: (seq<string>, nat) -> bool)
    returns (n: nat)
    requires i <= |lines|
    ensures ReadTo(lines, i, quoteStarts, n)
    decreases |lines| - i
  {
    n := i;
    if i < |lines| && !quoteStarts(lines, i) {
      n := ReadingEnds(lines, i + 1, quoteStarts);
    }
  }

  lemma UnquotedEnds(lines: seq<string>, n: nat, quoteStarts: (seq<string>, nat) -> bool)
    requires n <= |lines| && (n < |lines| ==> quoteStarts(lines, n))
    ensures OwnOf(lines, n) + Unquoted(lines, n, quoteStarts) == OwnOf(lines, n)
  {
    assert Unquoted(lines, n, quoteStarts) == [];
  }

  lemma {:induction false} UnquotedFrom(lines: seq<string>, i: nat, quoteStarts: (seq<string>, nat) -> bool, n: nat)
    requires ReadTo(lines, i, quoteStarts, n)
    ensures OwnOf(lines, i) + Unquoted(lines, i, quoteStarts) == OwnOf(lines, n)
    decreases n - i
  {
    if i == n {
      UnquotedEnds(lines, n, quoteStarts);
    } else {
      OwnNext(lines, i, quoteStarts);
      UnquotedFrom(lines, i + 1, quoteStarts, n);
    }
  }

  /** Kept are the lines in front of the first at which the quoted history starts, less the quoted ones. */
  lemma UnquotedSays(lines: seq<string>, quoteStarts: (seq<string>, nat) -> bool) returns (n: nat)
    ensures n <= |lines| && Unquoted(lines, 0, quoteStarts) == OwnOf(lines, n)
    ensures (n < |lines| ==> quoteStarts(lines, n)) && forall k: nat | k < n :: !quoteStarts(lines, k)
  {
    n := ReadingEnds(lines, 0, quoteStarts);
    UnquotedFrom(lines, 0, quoteStarts, n);
    assert [] + Unquoted(lines, 0, quoteStarts) == Unquoted(lines, 0, quoteStarts);
  }

  /** "Sent from my", in any letters, at the beginning of the line and at the end of a word. */
  lemma SentFromSays(line: string)
    ensures IsSentFrom(line) <==>
              && |line| >= 12 && Lower(line[..12]) == "sent from my"
              && (|line| == 12 || !(IsAlphanumeric(line[12]) || line[12] == '_'))
  {
  }

  /** Blank lines and such signatures go at the end, and nowhere else. */
  lemma {:induction false} DropEndSays(lines: seq<string>) returns (j: nat)
    ensures j <= |lines| && DropEnd(lines) == lines[..j]
    ensures j > 0 ==> lines[j - 1] != [] && !IsSentFrom(lines[j - 1])
    ensures forall k | j <= k < |lines| :: lines[k] == [] || IsSentFrom(lines[k])
    decreases |lines|
  {
    j := |lines|;
    if lines != [] && (lines[|lines| - 1] == [] || IsSentFrom(lines[|lines| - 1])) {
      j := DropEndSays(lines[..|lines| - 1]);
      assert lines[..|lines| - 1][..j] == lines[..j];
    } else {
      assert lines[..j] == lines;
    }
  }

  /** What is left says something: exactly the lines that are neither blank nor a copy of the question, in order. */
  lemma {:induction false} BodySays(item: Item, lines: seq<string>)
    ensures forall line ::
              line in Body(item, lines) <==> line in lines && line != [] && !IsItemHeader(item, AfterItemNumber(line))
    decreases |lines|
  {
    if lines != [] {
      BodySays(item, lines[1..]);
      assert lines == [lines[0]] + lines[1..];
    }
  }

  lemma {:induction false} BodyJoins(item: Item, a: seq<string>, b: seq<string>)
    ensures Body(item, a + b) == Body(item, a) + Body(item, b)
    decreases |a|
  {
    if a == [] {
      assert a + b == b;
    } else {
      assert (a + b)[1..] == a[1..] + b;
      BodyJoins(item, a[1..], b);
    }
  }

  /** A number of one or two digits, perhaps a point or a bracket, and then a space. */
  predicate BeginsAs(line: string, n: nat, digits: string, mark: string, rest: string) {
    && IsNumber(digits, n) && (mark == [] || mark == "." || mark == ")") && rest != [] && IsSpace(rest[0])
    && line == digits + (mark + rest)
  }

  /** A copied question is looked for behind its item's number and the spaces after that. */
  lemma AfterNumberIsRead(line: string, n: nat, digits: string, mark: string, rest: string)
    requires BeginsAs(line, n, digits, mark, rest)
    ensures AfterItemNumber(line) == TrimStart(rest)
  {
    assert line[|digits|..] == mark + rest;
    if |digits| == 1 {
      assert line[1] == (mark + rest)[0];
      assert (mark + rest)[0] == if mark == [] then rest[0] else mark[0];
      SpaceIsNoDigit((mark + rest)[0]);
    }
    MarkIsPassed(mark, rest);
  }

  /** A line that does not begin so is read as it is. */
  lemma OtherLinesAreRead(line: string) returns (n: nat, digits: string, mark: string, rest: string)
    ensures AfterItemNumber(line) == line || BeginsAs(line, n, digits, mark, rest)
  {
    n, digits, mark, rest := 0, [], [], [];
    if line != [] && IsDigit(line[0]) {
      var d := if |line| > 1 && IsDigit(line[1]) then 2 else 1;
      digits := line[..d];
      n := if d == 2 then 10 * DigitValue(line[0]) + DigitValue(line[1]) else DigitValue(line[0]);
      mark := MarkedAs(line[d..]);
      rest := AfterMark(line[d..]);
      assert line == line[..d] + line[d..];
    }
  }

  /** Joined lines are split as they were. */
  lemma {:induction false} JoinedSplits(lines: seq<string>)
    requires lines != [] && forall line | line in lines :: '\n' !in line
    ensures Split(Joined(lines)) == lines
    decreases |lines|
  {
    if |lines| == 1 {
      SplitOne(lines[0]);
    } else {
      var init, last := lines[..|lines| - 1], lines[|lines| - 1];
      JoinedSplits(init);
      SplitOne(last);
      SplitJoins(Joined(init), last);
      assert lines == init + [last];
    }
  }

  /** A line of a mail loses the return at its end, if one is there, but for the last line. */
  lemma {:induction false} ReturnsGo(lines: seq<string>, k: nat)
    requires k < |lines|
    ensures |DropReturns(lines)| == |lines|
    ensures var line := lines[k];
            DropReturns(lines)[k] == if k + 1 < |lines| && line != [] && line[|line| - 1] == '\r'
                                     then line[..|line| - 1] else line
    decreases |lines|
  {
    if |lines| > 1 {
      ReturnsGo(lines[1..], if k > 0 then k - 1 else 0);
    }
  }

  /** A reply is thanked for alone exactly when nothing in it answers. */
  lemma ThanksExactlyWhenEmpty(batch: Batch, text: string, threaded: bool, quoteStarts: (seq<string>, nat) -> bool)
    ensures var reply := ParseReply(batch, text, threaded, quoteStarts); reply.ack <==> reply.answers == []
  {
  }

  /** It is one of these lines, trimmed. */
  predicate IsOneOf(lines: seq<string>, line: string) {
    exists k {:trigger lines[k]} :: 0 <= k < |lines| && line == Trim(lines[k])
  }

  lemma IsFirstOrLater(lines: seq<string>, line: string)
    requires lines != []
    ensures IsOneOf(lines, line) <==> line == Trim(lines[0]) || IsOneOf(lines[1..], line)
  {
    if line != Trim(lines[0]) && IsOneOf(lines, line) {
      var k :| 0 <= k < |lines| && line == Trim(lines[k]);
      assert lines[1..][k - 1] == lines[k];
    } else if IsOneOf(lines[1..], line) {
      var k :| 0 <= k < |lines[1..]| && line == Trim(lines[1..][k]);
      assert lines[k + 1] == lines[1..][k];
    }
  }

  /** The lines that are read: trimmed, and neither blank nor quoted. */
  lemma {:induction false} WordedSays(lines: seq<string>, line: string)
    ensures line in Worded(lines) <==> line != [] && line[0] != '>' && IsOneOf(lines, line)
    decreases |lines|
  {
    if lines != [] {
      WordedSays(lines[1..], line);
      IsFirstOrLater(lines, line);
    }
  }

  /** And they are read in order. */
  lemma {:induction false} WordedJoins(a: seq<string>, b: seq<string>)
    ensures Worded(a + b) == Worded(a) + Worded(b)
    decreases |a|
  {
    if a == [] {
      assert a + b == b;
    } else {
      assert (a + b)[1..] == a[1..] + b;
      WordedJoins(a[1..], b);
    }
  }

  /** A line names a token of the batch exactly when the token that it begins with is the batch's or an item's. */
  lemma NamesTokenSays(batch: Batch, line: string)
    ensures NamesToken(batch, line) <==>
              && LineToken(line).Some?
              && (Upper(LineToken(line).value.0) == batch.token
                  || !NoToken(batch.items, Upper(LineToken(line).value.0)))
  {
    if LineToken(line).Some? {
      TokenNames(batch.items, Upper(LineToken(line).value.0));
    }
  }

  /** A reply is one answer in a reply to a batch of one item, unless a line of it names a token of the batch. */
  lemma WholeExactlyWhen(batch: Batch, text: string, threaded: bool)
    ensures IsWhole(batch, text, threaded) <==>
              threaded && |batch.items| == 1 && forall line | line in ReplyLines(text) :: !NamesToken(batch, line)
  {
  }

  /** Any other reply answers what its lines say and do not contradict. */
  lemma LinesSay(batch: Batch, text: string, threaded: bool, quoteStarts: (seq<string>, nat) -> bool)
    requires !IsWhole(batch, text, threaded)
    ensures var found := FoundIn(batch, threaded, Worded(Split(text)));
            ParseReply(batch, text, threaded, quoteStarts).answers == Standing(found, |found|)
  {
  }

  /** A reply that is one answer answers the batch's item with what is left of it, unless nothing is. */
  lemma WholeSays(batch: Batch, text: string, threaded: bool, quoteStarts: (seq<string>, nat) -> bool, n: nat, j: nat)
    requires IsWhole(batch, text, threaded)
    requires var lines := DropReturns(Split(text));
             && n <= |lines| && (n < |lines| ==> quoteStarts(lines, n))
             && (forall k: nat | k < n :: !quoteStarts(lines, k))
             && j <= |OwnOf(lines, n)| && (j > 0 ==> !AtEnd(OwnOf(lines, n)[j - 1]))
             && (forall k | j <= k < |OwnOf(lines, n)| :: AtEnd(OwnOf(lines, n)[k]))
    ensures var said := Body(batch.items[0], OwnOf(DropReturns(Split(text)), n)[..j]);
            ParseReply(batch, text, threaded, quoteStarts).answers
            == if said == [] then [] else [Found(0, OptionOrText(batch.items[0].options, Joined(said)))]
  {
    var lines := DropReturns(Split(text));
    var n' := UnquotedSays(lines, quoteStarts);
    assert n' == n;
    var j' := DropEndSays(OwnOf(lines, n));
    assert j' == j;
  }

  predicate AtEnd(line: string) {
    line == [] || IsSentFrom(line)
  }

  /** Text that picks nothing is taken as it stands, trimmed. */
  lemma TextIsTrimmed(options: seq<Choice>, rest: string)
    ensures OptionOrText(options, rest).Text? ==> OptionOrText(options, rest).text == Trim(rest)
  {
  }
}
