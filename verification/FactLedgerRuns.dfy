/** What the fact ledger keeps over every run of its operations. */
module FactLedgerRuns {
  import opened Basics
  import opened FactLedger
  import opened Jsonl

  // ---- The invariant ----

  /** A fact that replaces another is later than it and is named as its replacement: no fact is replaced twice. */
  predicate Replaces(v: View, id: nat) {
    id in v && (v[id].claim.supersedes.Some? ==>
      var was := v[id].claim.supersedes.value;
      was < id && was in v && v[was].supersededBy == Some(id))
  }

  /** "superseded" holds exactly when a later fact that replaces this one is named. */
  predicate Replaced(v: View, id: nat) {
    && id in v
    && (v[id].status.Superseded? <==> v[id].supersededBy.Some?)
    && (v[id].supersededBy.Some? ==>
      var next := v[id].supersededBy.value;
      next > id && next in v && v[next].claim.supersedes == Some(id))
  }

  predicate SourceRules(claim: Claim) {
    && !claim.provenance.Unlisted?
    && (claim.provenance.User? <==> claim.source.Some? && HostWritten(claim.source.value.kind))
    && (claim.provenance.Inferred? || claim.provenance.Unknown? ==> claim.source.None?)
  }

  /** Every fact of the basis is in the ledger, earlier than this one, and no open unknown. */
  predicate GroundedBasis(v: View, id: nat, basis: seq<nat>) {
    forall b | b in basis :: b in v && b < id && !v[b].claim.provenance.Unknown?
  }

  predicate Inferences(v: View, id: nat) {
    id in v && (v[id].claim.provenance.Inferred? ==> v[id].claim.basis != [] && GroundedBasis(v, id, v[id].claim.basis))
  }

  predicate Linked(v: View) {
    (forall id: nat | id in v :: Replaces(v, id)) && (forall id: nat | id in v :: Replaced(v, id))
  }

  predicate Inv(v: View) {
    && Linked(v)
    && (forall id: nat | id in v :: id > 0 && SourceRules(v[id].claim))
    && (forall id: nat | id in v :: Inferences(v, id))
  }

  // ---- A new fact ----

  /** What every operation that writes a fact has checked. */
  predicate Fit(v: View, id: nat, claim: Claim) {
    && id > 0 && (forall k | k in v :: k < id)
    && (claim.supersedes.Some? ==> claim.supersedes.value in v && v[claim.supersedes.value].status.Active?)
    && SourceRules(claim)
    && (claim.provenance.Inferred? ==> claim.basis != [] && GroundedBasis(v, id, claim.basis))
    && (claim.disclosable ==> PublicByRule(claim.provenance, claim.category))
  }

  lemma ReplayOne(v: View, e: Entry)
    ensures ReplayAll(v, [e]) == ReplayEntry(v, e)
  {
    assert [e][1..] == [];
  }

  lemma {:induction false} BasisIsGrounded(v: View, basis: seq<nat>)
    requires BasisFault(v, basis).None?
    ensures forall b | b in basis :: b in v && v[b].status.Active? && !v[b].claim.provenance.Unknown?
    decreases |basis|
  {
    if basis != [] {
      BasisIsGrounded(v, basis[1..]);
      assert basis == [basis[0]] + basis[1..];
    }
  }

  ghost predicate WritesFact(v: View, op: Op, executors: Option<set<string>>) {
    (op.Assert? || op.Infer? || op.RecordUnknown?) && Perform(v, op, executors).Ok?
  }

  ghost function Written(v: View, op: Op, executors: Option<set<string>>): Claim
    requires WritesFact(v, op, executors)
  {
    Perform(v, op, executors).lines[0].claim
  }

  lemma WrittenFactIsFit(v: View, op: Op, executors: Option<set<string>>)
    requires WritesFact(v, op, executors)
    ensures var claim := Written(v, op, executors);
      Fit(v, NextId(v), claim) && claim.basis == op.input.basis
          && Do(v, op, executors) == ReplayFact(v, NextId(v), claim)
  {
    if op.Infer? {
      BasisIsGrounded(v, op.input.basis);
    }
    ReplayOne(v, Perform(v, op, executors).lines[0]);
  }

  /** A retraction or a disclosure that is not refused writes one line. */
  lemma OneLine(v: View, op: Op, executors: Option<set<string>>)
    requires op.Retract? || op.SetDisclosable?
    ensures op.Retract? && RequireActive(v, op.id).Some? ==> Do(v, op, executors) == v
    ensures op.Retract? && RequireActive(v, op.id).None? ==>
          Do(v, op, executors) == v[op.id := v[op.id].(status := Retracted)]
    ensures op.SetDisclosable? && op.id !in v ==> Do(v, op, executors) == v
    ensures op.SetDisclosable? && op.id in v ==> Do(v, op, executors) == v[op.id := v[op.id].(disclosable := op.value)]
  {
    if Perform(v, op, executors).Ok? {
      ReplayOne(v, Perform(v, op, executors).lines[0]);
    }
  }

  lemma AddKeepsLinks(v: View, id: nat, claim: Claim)
    requires Linked(v) && Fit(v, id, claim)
    ensures Linked(ReplayFact(v, id, claim))
  {
    var after := ReplayFact(v, id, claim);
    assert claim.supersedes.Some? ==> Replaced(v, claim.supersedes.value);
    forall k: nat | k in after ensures Replaces(after, k) {
      if k != id {
        assert Replaces(v, k);
        if v[k].claim.supersedes.Some? {
          assert Replaced(v, v[k].claim.supersedes.value);
        }
      }
    }
    forall k: nat | k in after ensures Replaced(after, k) {
      if k != id {
        assert Replaced(v, k);
      }
    }
  }

  lemma AddKeepsInv(v: View, id: nat, claim: Claim)
    requires Inv(v) && Fit(v, id, claim)
    ensures Inv(ReplayFact(v, id, claim))
  {
    var after := ReplayFact(v, id, claim);
    AddKeepsLinks(v, id, claim);
    forall k: nat | k in after ensures k > 0 && SourceRules(after[k].claim) && Inferences(after, k) {
      if k != id {
        assert Inferences(v, k) && after[k].claim == v[k].claim;
      }
    }
  }

  // ---- The other lines ----

  /** The same facts, with the same links. */
  predicate SameLinks(a: View, b: View) {
    && a.Keys == b.Keys
    && (forall id | id in a ::
      b[id].claim == a[id].claim && b[id].supersededBy == a[id].supersededBy
          && (b[id].status.Superseded? <==> a[id].status.Superseded?))
  }

  lemma SameLinksKeepInv(a: View, b: View)
    requires Inv(a) && SameLinks(a, b)
    ensures Inv(b)
  {
    forall id: nat | id in b ensures Replaces(b, id) && Replaced(b, id) && Inferences(b, id) {
      assert Replaces(a, id) && Replaced(a, id) && Inferences(a, id);
    }
  }

  lemma {:induction false} MarksKeepLinks(v: View, w: View, ids: seq<nat>)
    requires SameLinks(v, w)
    ensures SameLinks(v, ReplayAll(w, LoadBearingLines(v, ids)))
    decreases |ids|
  {
    if ids != [] {
      if ids[0] in v && !v[ids[0]].loadBearing {
        var next := ReplayEntry(w, LoadBearingLine(ids[0]));
        MarksKeepLinks(v, next, ids[1..]);
        assert LoadBearingLines(v, ids)[1..] == LoadBearingLines(v, ids[1..]);
      } else {
        MarksKeepLinks(v, w, ids[1..]);
        assert LoadBearingLines(v, ids) == LoadBearingLines(v, ids[1..]);
      }
    }
  }

  lemma DoKeepsInv(v: View, op: Op, executors: Option<set<string>>)
    requires Inv(v)
    ensures Inv(Do(v, op, executors))
  {
    if op.MarkLoadBearing? {
      MarksKeepLinks(v, v, op.ids);
      SameLinksKeepInv(v, Do(v, op, executors));
    } else if op.Retract? || op.SetDisclosable? {
      OneLine(v, op, executors);
      SameLinksKeepInv(v, Do(v, op, executors));
    } else if WritesFact(v, op, executors) {
      WrittenFactIsFit(v, op, executors);
      AddKeepsInv(v, NextId(v), Written(v, op, executors));
    }
  }

  /** Every run keeps the invariant. */
  lemma {:induction false} RunKeepsInv(v: View, ops: seq<Op>, executors: Option<set<string>>)
    requires Inv(v)
    ensures Inv(Run(v, ops, executors))
    decreases |ops|
  {
    if ops != [] {
      DoKeepsInv(v, ops[0], executors);
      RunKeepsInv(Do(v, ops[0], executors), ops[1..], executors);
    }
  }

  // ---- What never changes, and what changes one way only ----

  predicate Ages(a: Fact, b: Fact) {
    && b.claim == a.claim
    && (b.status == a.status || a.status.Active?)
    && (a.supersededBy.Some? ==> b.supersededBy == a.supersededBy)
    && (a.loadBearing ==> b.loadBearing)
  }

  predicate Older(a: View, b: View) {
    forall id | id in a :: id in b && Ages(a[id], b[id])
  }

  lemma OlderChains(a: View, b: View, c: View)
    requires Older(a, b) && Older(b, c)
    ensures Older(a, c)
  {
    forall id | id in a ensures id in c && Ages(a[id], c[id]) {
      assert Ages(a[id], b[id]) && Ages(b[id], c[id]);
    }
  }

  lemma {:induction false} MarksAge(v: View, w: View, ids: seq<nat>)
    ensures Older(w, ReplayAll(w, LoadBearingLines(v, ids)))
    decreases |ids|
  {
    if ids != [] {
      if ids[0] in v && !v[ids[0]].loadBearing {
        var next := ReplayEntry(w, LoadBearingLine(ids[0]));
        assert LoadBearingLines(v, ids)[1..] == LoadBearingLines(v, ids[1..]);
        MarksAge(v, next, ids[1..]);
        OlderChains(w, next, ReplayAll(next, LoadBearingLines(v, ids[1..])));
      } else {
        assert LoadBearingLines(v, ids) == LoadBearingLines(v, ids[1..]);
        MarksAge(v, w, ids[1..]);
      }
    }
  }

  lemma AddAges(v: View, id: nat, claim: Claim)
    requires Linked(v) && Fit(v, id, claim)
    ensures Older(v, ReplayFact(v, id, claim))
  {
    forall k: nat | k in v ensures Ages(v[k], ReplayFact(v, id, claim)[k]) {
      assert Replaced(v, k);
    }
  }

  lemma DoAges(v: View, op: Op, executors: Option<set<string>>)
    requires Inv(v)
    ensures Older(v, Do(v, op, executors))
  {
    if op.MarkLoadBearing? {
      MarksAge(v, v, op.ids);
    } else if op.Retract? || op.SetDisclosable? {
      OneLine(v, op, executors);
    } else if WritesFact(v, op, executors) {
      WrittenFactIsFit(v, op, executors);
      AddAges(v, NextId(v), Written(v, op, executors));
    }
  }

  /** No fact is lost, rewritten or renumbered; a status only ever leaves "active", and never comes back. */
  lemma {:induction false} FactsOnlyAge(v: View, ops: seq<Op>, executors: Option<set<string>>)
    requires Inv(v)
    ensures Older(v, Run(v, ops, executors))
    decreases |ops|
  {
    if ops != [] {
      var next := Do(v, ops[0], executors);
      DoKeepsInv(v, ops[0], executors);
      DoAges(v, ops[0], executors);
      FactsOnlyAge(next, ops[1..], executors);
      OlderChains(v, next, Run(next, ops[1..], executors));
    }
  }

  /**
   * Ids are handed out fresh and in increasing order: an operation that writes a fact adds one id above all the
   * others.
   */
  lemma IdsAreFresh(v: View, op: Op, executors: Option<set<string>>)
    ensures var after := Do(v, op, executors);
      if WritesFact(v, op, executors)
      then after.Keys == v.Keys + {NextId(v)} && NextId(v) !in v && NextId(after) == NextId(v) + 1
      else after.Keys == v.Keys && NextId(after) == NextId(v)
  {
    if op.MarkLoadBearing? {
      MarksKeepLinks(v, v, op.ids);
    } else if op.Retract? || op.SetDisclosable? {
      OneLine(v, op, executors);
    } else if WritesFact(v, op, executors) {
      WrittenFactIsFit(v, op, executors);
    }
  }

  /** The fact that now stands for this one: the end of its chain of replacements, which always has one. */
  ghost function Current(v: View, id: nat): (c: nat)
    requires Linked(v) && id in v
    ensures c in v && id <= c && !v[c].status.Superseded?
    decreases NextId(v) - id
  {
    assert Replaced(v, id);
    if v[id].supersededBy.None? then id
    else Current(v, v[id].supersededBy.value)
  }

  /** Two facts with the same replacement are one fact. */
  lemma NoFactIsReplacedTwice(v: View, a: nat, b: nat)
    requires Linked(v) && a in v && b in v
    requires v[a].claim.supersedes.Some? && v[a].claim.supersedes == v[b].claim.supersedes
    ensures a == b
  {
    assert Replaces(v, a) && Replaces(v, b);
  }

  // ---- Who may see a fact ----

  /** Neither personal, financial, legal nor health facts, nor inferences, nor unknowns may be shown. */
  predicate PrivateByRule(claim: Claim) {
    !PublicByRule(claim.provenance, claim.category)
  }

  predicate KeptPrivate(v: View, id: nat) {
    id in v && PrivateByRule(v[id].claim) ==> !v[id].disclosable
  }

  lemma {:induction false} MarksKeepPrivate(v: View, w: View, ids: seq<nat>, id: nat)
    requires KeptPrivate(w, id)
    ensures KeptPrivate(ReplayAll(w, LoadBearingLines(v, ids)), id)
    decreases |ids|
  {
    if ids != [] {
      if ids[0] in v && !v[ids[0]].loadBearing {
        assert LoadBearingLines(v, ids)[1..] == LoadBearingLines(v, ids[1..]);
        MarksKeepPrivate(v, ReplayEntry(w, LoadBearingLine(ids[0])), ids[1..], id);
      } else {
        assert LoadBearingLines(v, ids) == LoadBearingLines(v, ids[1..]);
        MarksKeepPrivate(v, w, ids[1..], id);
      }
    }
  }

  lemma AddKeepsPrivate(v: View, next: nat, claim: Claim, id: nat)
    requires KeptPrivate(v, id) && Fit(v, next, claim)
    ensures KeptPrivate(ReplayFact(v, next, claim), id)
  {
  }

  lemma DoKeepsPrivate(v: View, op: Op, executors: Option<set<string>>, id: nat)
    requires KeptPrivate(v, id) && op != SetDisclosable(id, true)
    ensures KeptPrivate(Do(v, op, executors), id)
  {
    if op.MarkLoadBearing? {
      MarksKeepPrivate(v, v, op.ids, id);
    } else if op.Retract? || op.SetDisclosable? {
      OneLine(v, op, executors);
    } else if WritesFact(v, op, executors) {
      WrittenFactIsFit(v, op, executors);
      AddKeepsPrivate(v, NextId(v), Written(v, op, executors), id);
    }
  }

  /** Whatever callers ask for, only setDisclosable ever makes a sensitive, inferred or unknown fact disclosable. */
  lemma {:induction false} OnlyTheOwnerDiscloses(v: View, ops: seq<Op>, executors: Option<set<string>>, id: nat)
    requires KeptPrivate(v, id) && SetDisclosable(id, true) !in ops
    ensures KeptPrivate(Run(v, ops, executors), id)
    decreases |ops|
  {
    if ops != [] {
      DoKeepsPrivate(v, ops[0], executors, id);
      OnlyTheOwnerDiscloses(Do(v, ops[0], executors), ops[1..], executors, id);
    }
  }

  // ---- What a fact rests on ----

  /** Everything that any fact names as its basis is earlier, in the ledger and known. */
  predicate AllGrounded(v: View) {
    forall id: nat | id in v :: GroundedBasis(v, id, v[id].claim.basis)
  }

  lemma GroundedIn(v: View, id: nat, claim: Claim, k: nat, basis: seq<nat>)
    requires Fit(v, id, claim) && k <= id
    ensures GroundedBasis(ReplayFact(v, id, claim), k, basis) <==> GroundedBasis(v, k, basis)
  {
    var after := ReplayFact(v, id, claim);
    forall b | b in basis
      ensures (b in after && b < k && !after[b].claim.provenance.Unknown?) <==>
            (b in v && b < k && !v[b].claim.provenance.Unknown?)
    {
    }
  }

  /** assert and unknown write the caller's basis unchecked, so the ledger stays grounded exactly when that basis is. */
  lemma BasisHoldsExactlyWhenGiven(v: View, op: Op, executors: Option<set<string>>)
    requires Inv(v) && AllGrounded(v) && WritesFact(v, op, executors)
    ensures AllGrounded(Do(v, op, executors)) <==> GroundedBasis(v, NextId(v), op.input.basis)
  {
    WrittenFactIsFit(v, op, executors);
    var id, claim := NextId(v), Written(v, op, executors);
    var after := ReplayFact(v, id, claim);
    GroundedIn(v, id, claim, id, claim.basis);
    forall k: nat | k in v ensures GroundedBasis(after, k, after[k].claim.basis) {
      GroundedIn(v, id, claim, k, v[k].claim.basis);
    }
    assert after[id].claim == claim;
  }

  /** An inference is always refused unless its basis is grounded and active. */
  lemma InferencesAreGrounded(v: View, input: Input, executors: Option<set<string>>)
    requires Inv(v) && WritesFact(v, Infer(input), executors)
    ensures input.basis != [] && GroundedBasis(v, NextId(v), input.basis)
    ensures forall b | b in input.basis :: v[b].status.Active?
  {
    WrittenFactIsFit(v, Infer(input), executors);
    BasisIsGrounded(v, input.basis);
  }

  /** The first fact of a ledger can be asserted to rest on itself. */
  lemma AssertedFactCanRestOnItself(executors: Option<set<string>>)
    ensures exists input ::
      WritesFact(map[], Assert(input), executors) && input.basis == [NextId(map[])]
          && !AllGrounded(Do(map[], Assert(input), executors))
  {
    var input := Input("a", "a", "a", None, Some(Source(Document, None)), OtherCategory, false, false, None,
        [NextId(map[])], "", "", "");
    assert Trim("a") == "a" by {
      assert TrimStart("a") == "a";
    }
    var v: View := map[];
    assert Inv(v) && AllGrounded(v);
    assert WritesFact(v, Assert(input), executors);
    BasisHoldsExactlyWhenGiven(v, Assert(input), executors);
    assert input.basis[0] in input.basis;
    assert !GroundedBasis(v, NextId(v), input.basis);
  }
}
