/** The ledger object: nothing in memory, every operation replays the file and appends to it. */
module FactLedgerFiles {
  import opened Basics
  import opened Jsonl
  import opened FactLedger
  import opened FactLedgerRuns

  /** JSON.stringify and JSON.parse of ledger lines: `parse` gives back what `encode` was given. */
  ghost predicate Codec(encode: Entry -> string, parse: string -> Option<Entry>) {
    forall e :: EncodesTo(parse, encode(e), e)
  }

  function Replayed(parse: string -> Option<Entry>, text: string): View {
    ReadText(parse, CheckEntry, map[], text).state
  }

  lemma AppendReplays(encode: Entry -> string, parse: string -> Option<Entry>, text: string, e: Entry)
    requires Codec(encode, parse)
    ensures Replayed(parse, Appended(text, encode(e))) == ReplayEntry(Replayed(parse, text), e)
  {
    assert EncodesTo(parse, encode(e), e);
    AppendIsOneStep(parse, CheckEntry, map[], text, encode(e), e);
  }

  class FactLedgerFile {
    const file: JsonlFile
    const encode: Entry -> string
    const parse: string -> Option<Entry>
    const executors: Option<set<string>>

    ghost function Model(): View
      reads this, file
    {
      Replayed(parse, file.Text())
    }

    constructor (content: Option<string>, encode: Entry -> string, parse: string -> Option<Entry>,
        executors: Option<set<string>>)
      ensures this.encode == encode && this.parse == parse && this.executors == executors
      ensures fresh(file) && file.content == content
    {
      file := new JsonlFile(content);
      this.encode, this.parse, this.executors := encode, parse, executors;
    }

    method Current() returns (v: View, errors: seq<nat>)
      ensures v == Model() && errors == ReadText(parse, CheckEntry, map[], file.Text()).errors
    {
      v, errors := file.Read(parse, CheckEntry, map[]);
    }

    method Append(e: Entry)
      requires Codec(encode, parse)
      modifies file
      ensures Model() == ReplayEntry(old(Model()), e)
    {
      AppendReplays(encode, parse, file.Text(), e);
      file.Append(encode(e));
    }

    method HighestOf(v: View) returns (max: nat)
      ensures max == NextId(v) - 1
    {
      max := 0;
      var left := v.Keys;
      while left != {}
        invariant left <= v.Keys && IsHighest(v.Keys - left, max)
        decreases left
      {
        var id :| id in left;
        assert v.Keys - (left - {id}) == (v.Keys - left) + {id};
        left := left - {id};
        if id > max {
          max := id;
        }
      }
      assert v.Keys - left == v.Keys;
    }

    /** The shared end of assert, infer and unknown. */
    method Write(v: View, input: Input, provenance: Provenance, source: Option<Source>)
      returns (error: Option<LedgerError>)
      requires Codec(encode, parse) && v == Model()
      modifies file
      ensures match WriteFact(v, input, provenance, source)
        case Refused(fault) => error == Some(fault) && file.content == old(file.content)
        case Ok(lines) => error == None && |lines| == 1 && Model() == ReplayEntry(v, lines[0])
    {
      if input.supersedes.Some? {
        error := RequireActive(v, input.supersedes.value);
        if error.Some? {
          return;
        }
      }
      var max := HighestOf(v);
      var disclosable := !input.madePrivate && PublicByRule(provenance, input.category);
      Append(FactLine(max + 1, Claim(Trim(input.stmt), Trim(input.subject), Trim(input.attr), provenance, source,
                                     input.category, disclosable, input.loadBearing, input.supersedes, input.basis)));
      error := None;
    }

    /** What every operation promises: the state steps as FactLedger.Do says, and a refused one writes nothing. */
    ghost predicate Stepped(was: View, content: Option<string>, op: Op, error: Option<LedgerError>)
      reads this, file
    {
      && Model() == Do(was, op, executors)
      && (match Perform(was, op, executors)
          case Refused(fault) => error == Some(fault) && file.content == content
          case Ok(_) => error == None)
    }

    method Assert(input: Input) returns (error: Option<LedgerError>)
      requires Codec(encode, parse)
      modifies file
      ensures Stepped(old(Model()), old(file.content), FactLedger.Assert(input), error)
    {
      if !HasTexts(input) {
        return Some(TextRequired);
      }
      var provenance := if input.provenance.Some? then input.provenance.value else Sourced;
      error := SourceFault(provenance, input.source, executors);
      if error.Some? {
        return;
      }
      var v, _ := Current();
      error := Write(v, input, provenance, input.source);
      StepOf(v, FactLedger.Assert(input), executors);
    }

    method Infer(input: Input) returns (error: Option<LedgerError>)
      requires Codec(encode, parse)
      modifies file
      ensures Stepped(old(Model()), old(file.content), FactLedger.Infer(input), error)
    {
      if !HasTexts(input) {
        return Some(TextRequired);
      }
      if input.basis == [] {
        return Some(BasisRequired);
      }
      var v, _ := Current();
      error := CheckBasis(v, input.basis);
      if error.Some? {
        return;
      }
      error := Write(v, input, Inferred, None);
      StepOf(v, FactLedger.Infer(input), executors);
    }

    method CheckBasis(v: View, basis: seq<nat>) returns (error: Option<LedgerError>)
      ensures error == BasisFault(v, basis)
    {
      var i := 0;
      while i < |basis|
        invariant 0 <= i <= |basis|
        invariant BasisFault(v, basis) == BasisFault(v, basis[i..])
      {
        error := RequireActive(v, basis[i]);
        if error.Some? {
          return;
        }
        if v[basis[i]].claim.provenance.Unknown? {
          return Some(BasisUnknown);
        }
        assert basis[i..][1..] == basis[i + 1..];
        i := i + 1;
      }
      error := None;
    }

    method RecordUnknown(input: Input) returns (error: Option<LedgerError>)
      requires Codec(encode, parse)
      modifies file
      ensures Stepped(old(Model()), old(file.content), FactLedger.RecordUnknown(input), error)
    {
      if !HasTexts(input) || Trim(input.changes) == [] || Trim(input.answerable) == [] || Trim(input.how) == [] {
        return Some(TextRequired);
      }
      var v, _ := Current();
      error := Write(v, input, Unknown, None);
      StepOf(v, FactLedger.RecordUnknown(input), executors);
    }

    method Retract(id: nat) returns (error: Option<LedgerError>)
      requires Codec(encode, parse)
      modifies file
      ensures Stepped(old(Model()), old(file.content), FactLedger.Retract(id), error)
    {
      var v, _ := Current();
      error := RequireActive(v, id);
      if error.None? {
        Append(RetractLine(id));
        ReplayOne(v, RetractLine(id));
      }
    }

    method SetDisclosable(id: nat, value: bool) returns (error: Option<LedgerError>)
      requires Codec(encode, parse)
      modifies file
      ensures Stepped(old(Model()), old(file.content), FactLedger.SetDisclosable(id, value), error)
    {
      var v, _ := Current();
      if id !in v {
        return Some(Missing);
      }
      Append(DisclosableLine(id, value));
      ReplayOne(v, DisclosableLine(id, value));
      error := None;
    }

    /** Judged against one replay, before the first line is appended. */
    method MarkLoadBearing(ids: seq<nat>)
      requires Codec(encode, parse)
      modifies file
      ensures Model() == Do(old(Model()), FactLedger.MarkLoadBearing(ids), executors)
    {
      var v, _ := Current();
      var i := 0;
      while i < |ids|
        invariant 0 <= i <= |ids|
        invariant ReplayAll(v, LoadBearingLines(v, ids)) == ReplayAll(Model(), LoadBearingLines(v, ids[i..]))
      {
        assert ids[i..][0] == ids[i] && ids[i..][1..] == ids[i + 1..];
        MarksNext(v, Model(), ids[i..]);
        if ids[i] in v && !v[ids[i]].loadBearing {
          Append(LoadBearingLine(ids[i]));
        }
        i := i + 1;
      }
    }
  }

  lemma StepOf(v: View, op: Op, executors: Option<set<string>>)
    requires op.Assert? || op.Infer? || op.RecordUnknown?
    ensures match Perform(v, op, executors)
      case Ok(lines) => |lines| == 1 && Do(v, op, executors) == ReplayEntry(v, lines[0])
      case Refused(_) => Do(v, op, executors) == v
  {
    if Perform(v, op, executors).Ok? {
      ReplayOne(v, Perform(v, op, executors).lines[0]);
    }
  }

  lemma MarksNext(v: View, w: View, ids: seq<nat>)
    requires ids != []
    ensures ReplayAll(w, LoadBearingLines(v, ids)) ==
      ReplayAll(if ids[0] in v && !v[ids[0]].loadBearing then ReplayEntry(w, LoadBearingLine(ids[0]))
          else w, LoadBearingLines(v, ids[1..]))
  {
    if ids[0] in v && !v[ids[0]].loadBearing {
      assert LoadBearingLines(v, ids)[1..] == LoadBearingLines(v, ids[1..]);
    } else {
      assert LoadBearingLines(v, ids) == LoadBearingLines(v, ids[1..]);
    }
  }
}
