/**
 * The approaches a case tried and dropped (src/cases/abandoned.js): `abandon` adds a record, `withdraw` takes one
 * back, nothing is edited.
 */
module Abandoned {
  import opened Basics
  import opened Jsonl

  /** "ab-0007" is Id(7, 0); further leading zeros make another id with the same number. */
  datatype Id = Id(number: nat, zeros: nat)

  datatype Record = Record(id: Id, approach: string, why: string, withdrawn: bool)

  /** A parsed line. The fields of a wrong type are None; an id that is no ab-number is None. */
  datatype Line = NoRecord | Line(kind: Kind, id: Option<Id>, target: Option<Id>, approach: Option<string>,
      why: Option<string>)

  datatype Kind = Abandon | Withdraw | OtherKind

  /** What replaying leaves: the records oldest first, and the highest number any record line carried. */
  datatype Fold = Fold(records: seq<Record>, highest: nat)

  function Max(a: nat, b: nat): nat {
    if a < b then b else a
  }

  /** Where the record with this id is, or the length of the list. */
  function Position(records: seq<Record>, id: Id): (i: nat)
    ensures i <= |records| && (i < |records| ==> records[i].id == id)
  {
    if records == [] || records[0].id == id then 0 else 1 + Position(records[1..], id)
  }

  predicate Has(records: seq<Record>, id: Id) {
    Position(records, id) < |records|
  }

  predicate Written(text: Option<string>) {
    text.Some? && Trim(text.value) != []
  }

  predicate AbandonFits(records: seq<Record>, line: Line) {
    line.Line? && line.id.Some? && !Has(records, line.id.value) && Written(line.approach) && Written(line.why)
  }

  predicate WithdrawFits(records: seq<Record>, line: Line) {
    line.Line? && line.target.Some? && Has(records, line.target.value)
        && !records[Position(records, line.target.value)].withdrawn
  }

  /** The check that _fold gives its reader: it keeps a rejected line's number all the same. */
  function CheckLine(f: Fold, line: Line): Checked<Fold> {
    if line.NoRecord? then Checked(f, false)
    else
      var g := f.(highest := if line.id.Some? then Max(f.highest, line.id.value.number) else f.highest);
      if line.kind.Abandon? && AbandonFits(f.records, line) then
        Checked(g.(records := f.records + [Record(line.id.value, line.approach.value, line.why.value, false)]), true)
      else if line.kind.Withdraw? && WithdrawFits(f.records, line) then
        var i := Position(f.records, line.target.value);
        Checked(g.(records := f.records[i := f.records[i].(withdrawn := true)]), true)
      else Checked(g, false)
  }

  const START := Fold([], 0)

  function FoldText(parse: string -> Option<Line>, text: string): Fold {
    ReadText(parse, CheckLine, START, text).state
  }

  // ---- Every number a line carried ----

  /** The number in the id of a raw line, if the line parses to a record with one. */
  function NumberIn(parse: string -> Option<Line>, raw: string): Option<nat> {
    var text := Trim(raw);
    if text == [] || parse(text).None? || parse(text).value.NoRecord? || parse(text).value.id.None? then None
    else Some(parse(text).value.id.value.number)
  }

  lemma {:induction false} HighestCoversLines(parse: string -> Option<Line>, r: Replay<Fold>, lines: seq<string>,
      n: nat)
    ensures var end := ReadLines(parse, CheckLine, r, lines, n).state;
      r.state.highest <= end.highest
      && (forall raw | raw in lines && NumberIn(parse, raw).Some? :: NumberIn(parse, raw).value <= end.highest)
    decreases |lines|
  {
    if lines != [] {
      var next := ReadLine(parse, CheckLine, r, lines[0], n);
      HighestCoversLines(parse, next, lines[1..], n + 1);
      assert lines == [lines[0]] + lines[1..];
    }
  }

  /** The next id is above every number the file has ever carried, on rejected lines too: none is handed out again. */
  lemma IdIsNeverReused(parse: string -> Option<Line>, text: string, raw: string)
    requires raw in Split(text) && NumberIn(parse, raw).Some?
    ensures NumberIn(parse, raw).value < FoldText(parse, text).highest + 1
  {
    HighestCoversLines(parse, Replay(START, []), Split(text), 1);
  }

  // ---- What holds of every file, however it was edited ----

  predicate Distinct(records: seq<Record>) {
    forall i, j | 0 <= i < j < |records| :: records[i].id != records[j].id
  }

  predicate Inv(f: Fold) {
    Distinct(f.records) && (forall i | 0 <= i < |f.records| :: f.records[i].id.number <= f.highest)
  }

  lemma PositionFinds(records: seq<Record>, id: Id)
    ensures Has(records, id) <==> exists i :: 0 <= i < |records| && records[i].id == id
  {
    if records != [] && records[0].id != id {
      PositionFinds(records[1..], id);
      if exists i :: 0 <= i < |records| && records[i].id == id {
        var i :| 0 <= i < |records| && records[i].id == id;
        assert records[1..][i - 1].id == id;
      }
    }
  }

  lemma CheckKeepsInv(f: Fold, line: Line)
    requires Inv(f)
    ensures Inv(CheckLine(f, line).state)
  {
    if line.Line? && line.kind.Abandon? && line.id.Some? {
      PositionFinds(f.records, line.id.value);
    }
  }

  lemma {:induction false} ReadKeepsInv(parse: string -> Option<Line>, r: Replay<Fold>, lines: seq<string>, n: nat)
    requires Inv(r.state)
    ensures Inv(ReadLines(parse, CheckLine, r, lines, n).state)
    decreases |lines|
  {
    if lines != [] {
      var text := Trim(lines[0]);
      if text != [] && parse(text).Some? {
        CheckKeepsInv(r.state, parse(text).value);
      }
      ReadKeepsInv(parse, ReadLine(parse, CheckLine, r, lines[0], n), lines[1..], n + 1);
    }
  }

  /** Whatever is in the file, its records have different ids, all at or below the highest number. */
  lemma EveryFileIsSound(parse: string -> Option<Line>, text: string)
    ensures Inv(FoldText(parse, text))
  {
    ReadKeepsInv(parse, Replay(START, []), Split(text), 1);
  }

  /** The later list goes on from the earlier one; of an earlier record only `withdrawn` may have changed, to true. */
  predicate Continues(a: seq<Record>, b: seq<Record>) {
    |a| <= |b| && (forall i | 0 <= i < |a| :: b[i] == a[i] || b[i] == a[i].(withdrawn := true))
  }

  /** Whatever lines follow, no record is edited, dropped or brought back once withdrawn. */
  lemma {:induction false} NothingIsEdited(parse: string -> Option<Line>, r: Replay<Fold>, lines: seq<string>, n: nat)
    ensures Continues(r.state.records, ReadLines(parse, CheckLine, r, lines, n).state.records)
    decreases |lines|
  {
    if lines != [] {
      var next := ReadLine(parse, CheckLine, r, lines[0], n);
      assert Continues(r.state.records, next.state.records);
      NothingIsEdited(parse, next, lines[1..], n + 1);
    }
  }

  // ---- The operations ----

  datatype Error = Invalid | AlreadyAbandoned

  ghost predicate Codec(encode: Line -> string, parse: string -> Option<Line>) {
    forall line :: EncodesTo(parse, encode(line), line)
  }

  /** An approach still recorded, up to how quotes are compared. */
  predicate Stands(records: seq<Record>, approach: string, norm: string -> string) {
    exists i :: 0 <= i < |records| && !records[i].withdrawn && norm(records[i].approach) == norm(approach)
  }

  lemma AppendFolds(encode: Line -> string, parse: string -> Option<Line>, text: string, line: Line)
    requires Codec(encode, parse)
    ensures FoldText(parse, Appended(text, encode(line))) == CheckLine(FoldText(parse, text), line).state
  {
    assert EncodesTo(parse, encode(line), line);
    AppendIsOneStep(parse, CheckLine, START, text, encode(line), line);
  }

  /** A new record's line is never rejected: its id is in no record. */
  lemma NewRecordFits(f: Fold, approach: string, why: string)
    requires Inv(f) && Trim(approach) != [] && Trim(why) != []
    ensures var line := Line(Abandon, Some(Id(f.highest + 1, 0)), None, Some(approach), Some(why));
      CheckLine(f, line)
          == Checked(Fold(f.records + [Record(Id(f.highest + 1, 0), approach, why, false)], f.highest + 1), true)
  {
    PositionFinds(f.records, Id(f.highest + 1, 0));
  }

  // ---- What a line does ----

  /** A record has this id. */
  predicate IsRecorded(records: seq<Record>, id: Id) {
    exists i :: 0 <= i < |records| && records[i].id == id
  }

  lemma {:induction false} HasSays(records: seq<Record>, id: Id)
    ensures Has(records, id) <==> IsRecorded(records, id)
    decreases |records|
  {
    if records != [] && records[0].id != id {
      HasSays(records[1..], id);
      if IsRecorded(records, id) {
        var i :| 0 <= i < |records| && records[i].id == id;
        assert records[1..][i - 1].id == id;
      }
      if IsRecorded(records[1..], id) {
        var i :| 0 <= i < |records[1..]| && records[1..][i].id == id;
        assert records[i + 1].id == id;
      }
    }
  }

  /** A line is accepted if it records a new approach under a new id, or withdraws one that stands; and then only. */
  ghost predicate Accepted(records: seq<Record>, line: Line) {
    line.Line? &&
    match line.kind
    case Abandon =>
      && line.id.Some? && !IsRecorded(records, line.id.value)
      && line.approach.Some? && Trim(line.approach.value) != [] && line.why.Some? && Trim(line.why.value) != []
    case Withdraw => line.target.Some? && exists i :: IsStanding(records, line.target.value, i)
    case OtherKind => false
  }

  /** The first record with this id, and it is not withdrawn. */
  predicate IsStanding(records: seq<Record>, id: Id, i: nat) {
    && i < |records| && records[i].id == id && !records[i].withdrawn && forall k | 0 <= k < i :: records[k].id != id
  }

  lemma {:induction false} FirstIsAt(records: seq<Record>, id: Id)
    ensures var i := Position(records, id);
            && (i < |records| ==> records[i].id == id) && forall k | 0 <= k < i :: records[k].id != id
    decreases |records|
  {
    if records != [] && records[0].id != id {
      FirstIsAt(records[1..], id);
      assert forall k | 0 < k < |records| :: records[k] == records[1..][k - 1];
    }
  }

  lemma WithdrawSays(records: seq<Record>, line: Line)
    requires line.Line? && line.kind.Withdraw?
    ensures WithdrawFits(records, line) <==> Accepted(records, line)
    ensures WithdrawFits(records, line) ==> IsStanding(records, line.target.value, Position(records, line.target.value))
  {
    if line.target.Some? {
      FirstIsAt(records, line.target.value);
      if WithdrawFits(records, line) {
        assert IsStanding(records, line.target.value, Position(records, line.target.value));
      }
    }
  }

  /** An accepted line adds its record at the end, or withdraws the one it names; a rejected one changes no record. */
  lemma LineSays(f: Fold, line: Line)
    ensures var (next, ok) := (CheckLine(f, line).state, CheckLine(f, line).ok);
            && (ok <==> Accepted(f.records, line))
            && (!ok ==> next.records == f.records)
            && (ok && line.kind.Abandon? ==>
                  next.records == f.records + [Record(line.id.value, line.approach.value, line.why.value, false)])
            && (ok && line.kind.Withdraw? ==>
                  exists i: nat :: Withdraws(f.records, line.target.value, i, next.records))
  {
    if line.Line? && line.kind.Abandon? && line.id.Some? {
      HasSays(f.records, line.id.value);
    } else if line.Line? && line.kind.Withdraw? {
      WithdrawSays(f.records, line);
      if WithdrawFits(f.records, line) {
        var i := Position(f.records, line.target.value);
        assert Withdraws(f.records, line.target.value, i, CheckLine(f, line).state.records);
      }
    }
  }

  predicate Withdraws(records: seq<Record>, id: Id, i: nat, after: seq<Record>) {
    IsStanding(records, id, i) && after == records[i := records[i].(withdrawn := true)]
  }

  /** The highest number goes up to that of any line with an id, accepted or not, and never down. */
  lemma HighestSays(f: Fold, line: Line)
    ensures var highest := CheckLine(f, line).state.highest;
            && highest >= f.highest && (line.Line? && line.id.Some? ==> highest >= line.id.value.number)
            && (highest == f.highest || (line.Line? && line.id.Some? && highest == line.id.value.number))
  {
  }

  /** The number of a line that was written with an id is read off it. */
  lemma NumberIsRead(parse: string -> Option<Line>, raw: string, line: Line)
    requires EncodesTo(parse, raw, line) && line.Line? && line.id.Some?
    ensures NumberIn(parse, raw) == Some(line.id.value.number)
  {
  }

  /** An approach stands once it is recorded, until the last record of it is withdrawn. */
  lemma StandsUntilWithdrawn(records: seq<Record>, i: nat, norm: string -> string)
    requires i < |records| && !records[i].withdrawn
    ensures Stands(records, records[i].approach, norm)
    ensures !Stands(records[i := records[i].(withdrawn := true)], records[i].approach, norm) <==>
              forall k | 0 <= k < |records| && k != i ::
                records[k].withdrawn || norm(records[k].approach) != norm(records[i].approach)
  {
    var after := records[i := records[i].(withdrawn := true)];
    if k :| 0 <= k < |records| && k != i && !records[k].withdrawn
            && norm(records[k].approach) == norm(records[i].approach) {
      assert after[k] == records[k];
    }
  }

  class AbandonedStore {
    const file: JsonlFile
    const encode: Line -> string
    const parse: string -> Option<Line>
    const norm: string -> string

    ghost function Model(): Fold
      reads this, file
    {
      FoldText(parse, file.Text())
    }

    constructor (content: Option<string>, encode: Line -> string, parse: string -> Option<Line>, norm: string -> string)
      ensures this.encode == encode && this.parse == parse && this.norm == norm
      ensures fresh(file) && file.content == content
    {
      file := new JsonlFile(content);
      this.encode, this.parse, this.norm := encode, parse, norm;
    }

    method Append(line: Line)
      requires Codec(encode, parse)
      modifies file
      ensures Model() == CheckLine(old(Model()), line).state
    {
      AppendFolds(encode, parse, file.Text(), line);
      file.Append(encode(line));
    }

    /** `fine`: both texts are plain lines of the right length and every cited fact and decision exists. */
    method AbandonApproach(approach: string, why: string, fine: bool) returns (r: Option<Record>, error: Option<Error>)
      requires Codec(encode, parse)
      requires fine ==> Trim(approach) == approach != [] && Trim(why) == why != []
      modifies file
      ensures error == (if !fine then Some(Invalid)
          else if Stands(old(Model()).records, approach, norm) then Some(AlreadyAbandoned) else None)
      ensures error.Some? ==> r == None && file.content == old(file.content)
      ensures error.None? ==> r == Some(Record(Id(old(Model()).highest + 1, 0), approach, why, false))
      ensures error.None? ==> Model() == Fold(old(Model()).records + [r.value], old(Model()).highest + 1)
    {
      if !fine {
        return None, Some(Invalid);
      }
      var f, _ := file.Read(parse, CheckLine, START);
      EveryFileIsSound(parse, file.Text());
      var i := 0;
      while i < |f.records|
        invariant 0 <= i <= |f.records|
        invariant forall k :: 0 <= k < i ==> f.records[k].withdrawn || norm(f.records[k].approach) != norm(approach)
      {
        if !f.records[i].withdrawn && norm(f.records[i].approach) == norm(approach) {
          return None, Some(AlreadyAbandoned);
        }
        i := i + 1;
      }
      NewRecordFits(f, approach, why);
      Append(Line(Abandon, Some(Id(f.highest + 1, 0)), None, Some(approach), Some(why)));
      r, error := Some(Record(Id(f.highest + 1, 0), approach, why, false)), None;
    }

    method WithdrawApproach(id: Id, why: string, fine: bool) returns (error: Option<Error>)
      requires Codec(encode, parse)
      modifies file
      ensures var was := old(Model()).records;
        var i := Position(was, id);
        error == (if fine && i < |was| && !was[i].withdrawn then None else Some(Invalid))
        && (error.Some? ==> file.content == old(file.content))
        && (error.None? ==> Model() == Fold(was[i := was[i].(withdrawn := true)], old(Model()).highest))
    {
      if !fine {
        return Some(Invalid);
      }
      var f, _ := file.Read(parse, CheckLine, START);
      var i := Position(f.records, id);
      if i == |f.records| || f.records[i].withdrawn {
        return Some(Invalid);
      }
      Append(Line(Withdraw, None, Some(id), None, Some(why)));
      error := None;
    }
  }
}
