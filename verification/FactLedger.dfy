/**
 * The fact ledger of src/cases/ledger.js: the state is what replaying the lines gives, and every change is one more
 * line.
 */
module FactLedger {
  import opened Basics
  import opened Jsonl

  datatype Provenance = Sourced | User | ExternalAgent | Inferred | Unknown | Unlisted

  datatype SourceKind = UserMessage | Question | OwnerAction | Call | Api | Document | OtherKind

  /** executor: the folder under sources/ that the reference names, if it names one and climbs out of none. */
  datatype Source = Source(kind: SourceKind, executor: Option<string>)

  datatype Category = Personal | Financial | Legal | Health | OtherCategory

  datatype Status = Active | Superseded | Retracted

  /** What a fact line carries. */
  datatype Claim = Claim(stmt: string, subject: string, attr: string, provenance: Provenance, source: Option<Source>,
                         category: Category, disclosable: bool, loadBearing: bool, supersedes: Option<nat>,
                             basis: seq<nat>)

  datatype Fact = Fact(claim: Claim, status: Status, supersededBy: Option<nat>, disclosable: bool, loadBearing: bool)

  datatype Entry = FactLine(id: nat, claim: Claim) | RetractLine(target: nat)
    | DisclosableLine(target: nat, value: bool) | LoadBearingLine(target: nat) | OtherLine(target: nat) | NoKind

  type View = map<nat, Fact>

  // ---- Replaying ----

  function ReplayFact(v: View, id: nat, claim: Claim): View {
    var added := v[id := Fact(claim, Active, None, claim.disclosable, claim.loadBearing)];
    if claim.supersedes.Some? && claim.supersedes.value in added then
      var was := claim.supersedes.value;
      added[was := added[was].(status := Superseded, supersededBy := Some(id))]
    else added
  }

  function ReplayEntry(v: View, e: Entry): View {
    match e
    case FactLine(id, claim) => ReplayFact(v, id, claim)
    case RetractLine(target) => if target in v then v[target := v[target].(status := Retracted)] else v
    case DisclosableLine(target, value) => if target in v then v[target := v[target].(disclosable := value)] else v
    case LoadBearingLine(target) => if target in v then v[target := v[target].(loadBearing := true)] else v
    case OtherLine(_) => v
    case NoKind => v
  }

  /** A line with no kind is rejected. */
  function CheckEntry(v: View, e: Entry): Checked<View> {
    Checked(ReplayEntry(v, e), !e.NoKind?)
  }

  function ReplayAll(v: View, entries: seq<Entry>): View
    decreases entries
  {
    if entries == [] then v else ReplayAll(ReplayEntry(v, entries[0]), entries[1..])
  }

  // ---- What each operation writes ----

  datatype LedgerError = TextRequired | BadProvenance | SourceRequired | NotTheOwner | OwnerSourceRequired
    | NotAnExecutor | BasisRequired | Missing | NotActive | BasisUnknown

  /** The caller's fields. madePrivate: the caller passed `disclosable: false`. */
  datatype Input = Input(stmt: string, subject: string, attr: string, provenance: Option<Provenance>,
                         source: Option<Source>, category: Category, madePrivate: bool, loadBearing: bool,
                         supersedes: Option<nat>, basis: seq<nat>,
                         changes: string, answerable: string, how: string)

  datatype Op = Assert(input: Input) | Infer(input: Input) | RecordUnknown(input: Input) | Retract(id: nat)
    | SetDisclosable(id: nat, value: bool) | MarkLoadBearing(ids: seq<nat>)

  datatype Lines = Ok(lines: seq<Entry>) | Refused(error: LedgerError)

  predicate Sensitive(category: Category) {
    !category.OtherCategory?
  }

  predicate HostWritten(kind: SourceKind) {
    kind.UserMessage? || kind.Question? || kind.OwnerAction?
  }

  predicate HasTexts(input: Input) {
    Trim(input.stmt) != [] && Trim(input.subject) != [] && Trim(input.attr) != []
  }

  /** One more than the highest id. */
  ghost function NextId(v: View): (id: nat)
    ensures forall k | k in v :: k < id
    ensures id == 1 || id - 1 in v
  {
    Highest(v.Keys) + 1
  }

  ghost predicate IsHighest(ids: set<nat>, h: nat) {
    (forall k | k in ids :: k <= h) && (h == 0 || h in ids)
  }

  lemma HighestExists(ids: set<nat>)
    ensures exists h: nat :: IsHighest(ids, h)
    decreases |ids|
  {
    if ids == {} {
      assert IsHighest(ids, 0);
    } else {
      var k :| k in ids;
      HighestExists(ids - {k});
      var h: nat :| IsHighest(ids - {k}, h);
      assert forall x | x in ids :: x == k || x in ids - {k};
      assert IsHighest(ids, if k > h then k else h);
    }
  }

  ghost function Highest(ids: set<nat>): (h: nat)
    ensures IsHighest(ids, h)
  {
    HighestExists(ids);
    var h: nat :| IsHighest(ids, h);
    h
  }

  function RequireActive(v: View, id: nat): Option<LedgerError> {
    if id !in v then Some(Missing)
    else if !v[id].status.Active? then Some(NotActive)
    else None
  }

  predicate PublicByRule(provenance: Provenance, category: Category) {
    !provenance.Inferred? && !provenance.Unknown? && !Sensitive(category)
  }

  /** The line that _write appends. */
  ghost function WriteFact(v: View, input: Input, provenance: Provenance, source: Option<Source>): Lines {
    if input.supersedes.Some? && RequireActive(v, input.supersedes.value).Some? then
      Refused(RequireActive(v, input.supersedes.value).value)
    else
      var claim := Claim(Trim(input.stmt), Trim(input.subject), Trim(input.attr), provenance, source, input.category,
                         !input.madePrivate && PublicByRule(provenance, input.category), input.loadBearing,
                             input.supersedes, input.basis);
      Ok([FactLine(NextId(v), claim)])
  }

  function SourceFault(provenance: Provenance,
      source: Option<Source>, executors: Option<set<string>>): Option<LedgerError> {
    if !provenance.Sourced? && !provenance.User? && !provenance.ExternalAgent? then Some(BadProvenance)
    else if source.None? then Some(SourceRequired)
    else if HostWritten(source.value.kind) && !provenance.User? then Some(NotTheOwner)
    else if provenance.User? && !HostWritten(source.value.kind) then Some(OwnerSourceRequired)
    else if provenance.ExternalAgent?
      && ((!source.value.kind.Call? && !source.value.kind.Api? && !source.value.kind.Document?)
          || source.value.executor.None?
          || (executors.Some? && source.value.executor.value !in executors.value)) then Some(NotAnExecutor)
    else None
  }

  /** The first fault of an inference's basis. */
  function BasisFault(v: View, basis: seq<nat>): Option<LedgerError> {
    if basis == [] then None
    else if RequireActive(v, basis[0]).Some? then RequireActive(v, basis[0])
    else if v[basis[0]].claim.provenance.Unknown? then Some(BasisUnknown)
    else BasisFault(v, basis[1..])
  }

  function LoadBearingLines(v: View, ids: seq<nat>): seq<Entry> {
    if ids == [] then []
    else (if ids[0] in v && !v[ids[0]].loadBearing then [LoadBearingLine(ids[0])]
        else []) + LoadBearingLines(v, ids[1..])
  }

  ghost function Perform(v: View, op: Op, executors: Option<set<string>>): Lines {
    match op
    case Assert(input) =>
      var provenance := if input.provenance.Some? then input.provenance.value else Sourced;
      if !HasTexts(input) then Refused(TextRequired)
      else if SourceFault(provenance, input.source, executors).Some? then
        Refused(SourceFault(provenance, input.source, executors).value)
      else WriteFact(v, input, provenance, input.source)
    case Infer(input) =>
      if !HasTexts(input) then Refused(TextRequired)
      else if input.basis == [] then Refused(BasisRequired)
      else if BasisFault(v, input.basis).Some? then Refused(BasisFault(v, input.basis).value)
      else WriteFact(v, input, Inferred, None)
    case RecordUnknown(input) =>
      if !HasTexts(input) || Trim(input.changes) == [] || Trim(input.answerable) == []
          || Trim(input.how) == [] then Refused(TextRequired)
      else WriteFact(v, input, Unknown, None)
    case Retract(id) =>
      if RequireActive(v, id).Some? then Refused(RequireActive(v, id).value) else Ok([RetractLine(id)])
    case SetDisclosable(id, value) =>
      if id !in v then Refused(Missing) else Ok([DisclosableLine(id, value)])
    case MarkLoadBearing(ids) => Ok(LoadBearingLines(v, ids))
  }

  ghost function Do(v: View, op: Op, executors: Option<set<string>>): View {
    match Perform(v, op, executors)
    case Ok(lines) => ReplayAll(v, lines)
    case Refused(_) => v
  }

  ghost function Run(v: View, ops: seq<Op>, executors: Option<set<string>>): View
    decreases ops
  {
    if ops == [] then v else Run(Do(v, ops[0], executors), ops[1..], executors)
  }
}
