/** What each operation of the fact ledger leaves of every fact, and when it is refused. */
module FactLedgerEffects {
  import opened Basics
  import opened Jsonl
  import opened FactLedger
  import opened FactLedgerRuns

  predicate IsActive(v: View, id: nat) {
    id in v && v[id].status.Active?
  }

  /** Every other fact is as it was, and there is no new one. */
  predicate OnlyChanges(v: View, after: View, id: nat) {
    after.Keys == v.Keys && forall k | k in v && k != id :: after[k] == v[k]
  }

  // ---- Marks ----

  lemma {:induction false} MarksSet(v: View, w: View, ids: seq<nat>)
    requires v.Keys == w.Keys && forall id | id in v :: v[id].loadBearing ==> w[id].loadBearing
    ensures var after := ReplayAll(w, LoadBearingLines(v, ids));
            && after.Keys == v.Keys
            && forall id | id in v :: after[id] == w[id].(loadBearing := w[id].loadBearing || id in ids)
    decreases |ids|
  {
    if ids != [] {
      assert ids == [ids[0]] + ids[1..];
      if ids[0] in v && !v[ids[0]].loadBearing {
        assert LoadBearingLines(v, ids)[1..] == LoadBearingLines(v, ids[1..]);
        MarksSet(v, ReplayEntry(w, LoadBearingLine(ids[0])), ids[1..]);
      } else {
        assert LoadBearingLines(v, ids) == LoadBearingLines(v, ids[1..]);
        MarksSet(v, w, ids[1..]);
      }
    }
  }

  /** A fact is load-bearing after the call if and only if it was before or is one of the ids; nothing else changes. */
  lemma MarksExactly(v: View, ids: seq<nat>, executors: Option<set<string>>)
    ensures var after := Do(v, MarkLoadBearing(ids), executors);
            && after.Keys == v.Keys
            && forall id | id in v :: after[id] == v[id].(loadBearing := v[id].loadBearing || id in ids)
  {
    MarksSet(v, v, ids);
  }

  // ---- Retractions and disclosures ----

  /** A retraction of an active fact makes it retracted and changes nothing else; any other is refused. */
  lemma RetractsExactly(v: View, id: nat, executors: Option<set<string>>)
    ensures var after := Do(v, Retract(id), executors);
            && OnlyChanges(v, after, id)
            && (IsActive(v, id) ==>
                  Perform(v, Retract(id), executors).Ok? && after[id] == v[id].(status := Retracted))
            && (!IsActive(v, id) ==>
                  after == v && Perform(v, Retract(id), executors) == Refused(if id in v then NotActive else Missing))
  {
    OneLine(v, Retract(id), executors);
  }

  /** The owner shows or hides a fact, whatever its status; nothing else changes. */
  lemma DisclosesExactly(v: View, id: nat, value: bool, executors: Option<set<string>>)
    ensures var after := Do(v, SetDisclosable(id, value), executors);
            && OnlyChanges(v, after, id)
            && (id in v ==> Perform(v, SetDisclosable(id, value), executors).Ok?
                            && after[id] == v[id].(disclosable := value))
            && (id !in v ==> after == v && Perform(v, SetDisclosable(id, value), executors) == Refused(Missing))
  {
    OneLine(v, SetDisclosable(id, value), executors);
  }

  // ---- Facts that are written ----

  /** There is something else in it than spaces. */
  predicate Given(text: string) {
    exists k :: 0 <= k < |text| && !IsSpace(text[k])
  }

  lemma GivenSays(text: string)
    ensures Given(text) <==> Trim(text) != []
  {
    var i, j := TrimSays(text);
    if i < j {
      assert !IsSpace(text[i]);
    }
  }

  predicate TextsGiven(input: Input) {
    Given(input.stmt) && Given(input.subject) && Given(input.attr)
  }

  lemma TextsAreGiven(input: Input)
    ensures TextsGiven(input) <==> HasTexts(input)
  {
    GivenSays(input.stmt);
    GivenSays(input.subject);
    GivenSays(input.attr);
  }

  predicate ReasonsGiven(input: Input) {
    Given(input.changes) && Given(input.answerable) && Given(input.how)
  }

  lemma ReasonsAreGiven(input: Input)
    ensures ReasonsGiven(input) <==> Trim(input.changes) != [] && Trim(input.answerable) != [] && Trim(input.how) != []
  {
    GivenSays(input.changes);
    GivenSays(input.answerable);
    GivenSays(input.how);
  }

  predicate MayReplace(v: View, input: Input) {
    input.supersedes.Some? ==> IsActive(v, input.supersedes.value)
  }

  /** A source fits its provenance: the owner's three kinds if and only if it is `user`, an executor's for its own. */
  predicate SourceFits(provenance: Provenance, source: Option<Source>, executors: Option<set<string>>) {
    && source.Some?
    && match provenance
       case Sourced => !HostWritten(source.value.kind)
       case User => HostWritten(source.value.kind)
       case ExternalAgent =>
         && (source.value.kind.Call? || source.value.kind.Api? || source.value.kind.Document?)
         && source.value.executor.Some?
         && (executors.None? || source.value.executor.value in executors.value)
       case _ => false
  }

  function ProvenanceOf(input: Input): Provenance {
    if input.provenance.Some? then input.provenance.value else Sourced
  }

  lemma {:induction false} BasisFaultless(v: View, basis: seq<nat>)
    ensures BasisFault(v, basis).None? <==>
              forall b | b in basis :: IsActive(v, b) && !v[b].claim.provenance.Unknown?
    decreases |basis|
  {
    if basis != [] {
      BasisFaultless(v, basis[1..]);
      assert forall b :: b in basis <==> b == basis[0] || b in basis[1..];
      assert IsActive(v, basis[0]) <==> RequireActive(v, basis[0]).None?;
    }
  }

  /** assert writes a fact if and only if its texts, its source and what it replaces are in order. */
  lemma AssertsExactlyWhen(v: View, input: Input, executors: Option<set<string>>)
    ensures WritesFact(v, Assert(input), executors) <==>
              && TextsGiven(input) && SourceFits(ProvenanceOf(input), input.source, executors) && MayReplace(v, input)
  {
    TextsAreGiven(input);
    match ProvenanceOf(input)
    case Sourced =>
    case User =>
    case ExternalAgent =>
    case Inferred =>
    case Unknown =>
    case Unlisted =>
  }

  /** infer writes one if and only if every fact of a non-empty basis is active and known. */
  lemma InfersExactlyWhen(v: View, input: Input, executors: Option<set<string>>)
    ensures WritesFact(v, Infer(input), executors) <==>
              && TextsGiven(input) && input.basis != [] && MayReplace(v, input)
              && forall b | b in input.basis :: IsActive(v, b) && !v[b].claim.provenance.Unknown?
  {
    TextsAreGiven(input);
    BasisFaultless(v, input.basis);
  }

  /** unknown writes one if and only if all of its six texts are there. */
  lemma UnknownsExactlyWhen(v: View, input: Input, executors: Option<set<string>>)
    ensures WritesFact(v, RecordUnknown(input), executors) <==>
              TextsGiven(input) && ReasonsGiven(input) && MayReplace(v, input)
  {
    TextsAreGiven(input);
    ReasonsAreGiven(input);
  }

  /** Who a written fact says it comes from. */
  function WrittenProvenance(op: Op): Provenance
    requires op.Assert? || op.Infer? || op.RecordUnknown?
  {
    match op
    case Assert(input) => ProvenanceOf(input)
    case Infer(_) => Inferred
    case RecordUnknown(_) => Unknown
  }

  /**
   * The fact that is written says what the caller said, with its texts trimmed; it is private if the caller made it so,
   * if its category is sensitive, or if it is inferred or unknown.
   */
  predicate SaysWhatWasGiven(op: Op, f: Fact)
    requires op.Assert? || op.Infer? || op.RecordUnknown?
  {
    var input, c := op.input, f.claim;
    && f.status.Active? && f.supersededBy.None?
    && c.stmt == Trim(input.stmt) && c.subject == Trim(input.subject) && c.attr == Trim(input.attr)
    && c.provenance == WrittenProvenance(op) && c.source == (if op.Assert? then input.source else None)
    && c.category == input.category && c.basis == input.basis && c.supersedes == input.supersedes
    && (f.disclosable <==> !input.madePrivate && input.category.OtherCategory?
                           && !c.provenance.Inferred? && !c.provenance.Unknown?)
    && (f.loadBearing <==> input.loadBearing)
    && c.disclosable == f.disclosable && c.loadBearing == f.loadBearing
  }

  /**
   * An operation that writes a fact adds the one that was given, under the next id; the one it replaces is superseded
   * by it; and every other fact is as it was.
   */
  lemma WritesExactly(v: View, op: Op, executors: Option<set<string>>)
    requires WritesFact(v, op, executors)
    ensures var id, after := NextId(v), Do(v, op, executors);
            && after.Keys == v.Keys + {id} && SaysWhatWasGiven(op, after[id])
            && (forall k | k in v && op.input.supersedes != Some(k) :: after[k] == v[k])
            && (op.input.supersedes.Some? ==>
                  var was := op.input.supersedes.value;
                  was in v && after[was] == v[was].(status := Superseded, supersededBy := Some(id)))
  {
    WrittenFactIsFit(v, op, executors);
    if op.input.supersedes.Some? {
      assert op.input.supersedes.value < NextId(v);
    }
  }

  predicate NamesMissing(v: View, op: Op)
    requires op.Assert? || op.Infer? || op.RecordUnknown?
  {
    || (op.input.supersedes.Some? && op.input.supersedes.value !in v)
    || (op.Infer? && exists b :: b in op.input.basis && b !in v)
  }

  predicate NamesUnknown(v: View, op: Op)
    requires op.Assert? || op.Infer? || op.RecordUnknown?
  {
    op.Infer? && exists b :: b in op.input.basis && b in v && v[b].claim.provenance.Unknown?
  }

  predicate NamesInactive(v: View, op: Op)
    requires op.Assert? || op.Infer? || op.RecordUnknown?
  {
    || (op.input.supersedes.Some? && op.input.supersedes.value in v && !IsActive(v, op.input.supersedes.value))
    || (op.Infer? && exists b :: b in op.input.basis && b in v && !IsActive(v, b))
  }

  lemma {:induction false} BasisFaultHolds(v: View, basis: seq<nat>)
    ensures BasisFault(v, basis) == Some(BasisUnknown) ==>
              exists b :: b in basis && b in v && v[b].claim.provenance.Unknown?
    ensures BasisFault(v, basis) == Some(Missing) ==> exists b :: b in basis && b !in v
    ensures BasisFault(v, basis) == Some(NotActive) ==> exists b :: b in basis && b in v && !IsActive(v, b)
    ensures BasisFault(v, basis) in {None, Some(BasisUnknown), Some(Missing), Some(NotActive)}
    decreases |basis|
  {
    if basis != [] {
      BasisFaultHolds(v, basis[1..]);
      assert basis == [basis[0]] + basis[1..];
      assert basis[0] in basis;
    }
  }

  /** What an error says is so. */
  predicate IsSo(v: View, op: Op, error: LedgerError)
    requires op.Assert? || op.Infer? || op.RecordUnknown?
  {
    match error
    case TextRequired => !TextsGiven(op.input) || (op.RecordUnknown? && !ReasonsGiven(op.input))
    case BadProvenance => op.Assert? && ProvenanceOf(op.input) !in {Sourced, User, ExternalAgent}
    case SourceRequired => op.Assert? && op.input.source.None?
    case NotTheOwner =>
      op.Assert? && op.input.source.Some? && HostWritten(op.input.source.value.kind)
      && !ProvenanceOf(op.input).User?
    case OwnerSourceRequired =>
      op.Assert? && op.input.source.Some? && !HostWritten(op.input.source.value.kind)
      && ProvenanceOf(op.input).User?
    case NotAnExecutor => op.Assert? && ProvenanceOf(op.input).ExternalAgent?
    case BasisRequired => op.Infer? && op.input.basis == []
    case BasisUnknown => NamesUnknown(v, op)
    case Missing => NamesMissing(v, op)
    case NotActive => NamesInactive(v, op)
  }

  lemma AssertIsRefused(v: View, op: Op, executors: Option<set<string>>)
    requires op.Assert? && Perform(v, op, executors).Refused?
    ensures IsSo(v, op, Perform(v, op, executors).error)
  {
    TextsAreGiven(op.input);
  }

  lemma InferIsRefused(v: View, op: Op, executors: Option<set<string>>)
    requires op.Infer? && Perform(v, op, executors).Refused?
    ensures IsSo(v, op, Perform(v, op, executors).error)
  {
    TextsAreGiven(op.input);
    BasisFaultHolds(v, op.input.basis);
  }

  lemma UnknownIsRefused(v: View, op: Op, executors: Option<set<string>>)
    requires op.RecordUnknown? && Perform(v, op, executors).Refused?
    ensures IsSo(v, op, Perform(v, op, executors).error)
  {
    TextsAreGiven(op.input);
    ReasonsAreGiven(op.input);
  }

  /** A refused operation writes nothing, and the error it gives says what was wrong. */
  lemma RefusedWritesNothing(v: View, op: Op, executors: Option<set<string>>)
    requires (op.Assert? || op.Infer? || op.RecordUnknown?) && !WritesFact(v, op, executors)
    ensures Do(v, op, executors) == v && Perform(v, op, executors).Refused?
    ensures IsSo(v, op, Perform(v, op, executors).error)
  {
    if op.Assert? {
      AssertIsRefused(v, op, executors);
    } else if op.Infer? {
      InferIsRefused(v, op, executors);
    } else {
      UnknownIsRefused(v, op, executors);
    }
  }

  // ---- Reading and runs ----

  /** A line without a kind is an error; neither it nor one of an unknown kind changes anything. */
  lemma LinesAreJudged(v: View, e: Entry)
    ensures CheckEntry(v, e).ok <==> !e.NoKind?
    ensures e.NoKind? || e.OtherLine? ==> CheckEntry(v, e).state == v
  {
  }

  /** Each operation of a run works on what those before it left. */
  lemma {:induction false} RunGoesOn(v: View, ops: seq<Op>, op: Op, executors: Option<set<string>>)
    ensures Run(v, ops + [op], executors) == Do(Run(v, ops, executors), op, executors)
    decreases |ops|
  {
    if ops == [] {
      assert [op][1..] == [] && ops + [op] == [op];
    } else {
      assert (ops + [op])[1..] == ops[1..] + [op];
      RunGoesOn(Do(v, ops[0], executors), ops[1..], op, executors);
    }
  }
}
