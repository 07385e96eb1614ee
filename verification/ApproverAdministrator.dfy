/**
 * The object of src/approvals/approver-admin.js over its approver records and staged files; each pass is proved
 * against ApproverAdmin.
 */
module ApproverAdministrators {
  import opened Basics
  import opened ApproverAdmin
  import opened ApproverBatch
  import opened ApproverResults

  /** The files of these items that a batch is done with. */
  function Handled(before: Records, items: seq<Item>, todo: seq<Item>, env: Env): set<nat> {
    set item | item in todo && !StaysStaged(before, items, item, env) :: item.file
  }

  lemma HandledGrows(before: Records, items: seq<Item>, todo: seq<Item>, i: nat, env: Env)
    requires i < |todo|
    ensures Handled(before, items, todo[..i + 1], env) ==
      Handled(before, items, todo[..i], env) + (if StaysStaged(before, items, todo[i], env) then {} else {todo[i].file})
  {
    assert todo[..i + 1] == todo[..i] + [todo[i]];
    forall file | file in Handled(before, items, todo[..i + 1], env)
      ensures file in Handled(before, items, todo[..i], env) || (!StaysStaged(before, items, todo[i], env)
          && file == todo[i].file)
    {
      var item :| item in todo[..i + 1] && !StaysStaged(before, items, item, env) && item.file == file;
    }
  }

  lemma HonouredGrows(before: Records, items: seq<Item>, todo: seq<Item>, i: nat, env: Env)
    requires i < |todo|
    ensures HonouredIn(before, items, todo[..i + 1], env) ==
      HonouredIn(before, items, todo[..i], env) + (if Honoured(before, items, todo[i], env) then {todo[i].deviceId}
          else {})
  {
    assert todo[..i + 1] == todo[..i] + [todo[i]];
    forall id | id in HonouredIn(before, items, todo[..i + 1], env)
      ensures id in HonouredIn(before, items, todo[..i], env) || (Honoured(before, items, todo[i], env)
          && id == todo[i].deviceId)
    {
      var item :| item in todo[..i + 1] && Honoured(before, items, item, env) && item.deviceId == id;
    }
  }

  /** Each staged item once, under its own file name. */
  predicate Listing(items: seq<Item>, staged: map<nat, Item>) {
    && (forall item | item in items :: item.file in staged && staged[item.file] == item)
    && (forall file | file in staged :: staged[file] in items && staged[file].file == file)
  }

  function SignersIn(before: Records, todo: seq<Item>, env: Env): set<int> {
    set item | item in todo && JudgeRevoke(before, item, env).None? && item.deviceId in before :: item.deviceId
  }

  lemma SignersGrow(before: Records, todo: seq<Item>, i: nat, env: Env)
    requires i < |todo|
    ensures SignersIn(before, todo[..i + 1], env) == SignersIn(before, todo[..i], env)
      + (if JudgeRevoke(before, todo[i], env).None? && todo[i].deviceId in before then {todo[i].deviceId} else {})
  {
    assert todo[..i + 1] == todo[..i] + [todo[i]];
    forall id | id in SignersIn(before, todo[..i + 1], env)
      ensures id in SignersIn(before, todo[..i], env) ||
        (JudgeRevoke(before, todo[i], env).None? && todo[i].deviceId in before && id == todo[i].deviceId)
    {
      var item :| item in todo[..i + 1] && JudgeRevoke(before, item, env).None? && item.deviceId in before
          && item.deviceId == id;
    }
  }

  lemma SignersOf(before: Records, items: seq<Item>, env: Env)
    ensures SignersIn(before, Of(items, Revoke), env) == RevokedSigners(before, items, env)
  {
    OfMembers(items, Revoke);
  }

  lemma TargetsOf(before: Records, items: seq<Item>, env: Env)
    ensures HonouredIn(before, items, Of(items, Revoke), env) == RevokedTargets(before, items, env)
  {
    OfMembers(items, Revoke);
  }

  lemma MinusTwice(m: map<nat, Item>, a: set<nat>, b: set<nat>)
    ensures m - a - b == m - (a + b)
  {
  }

  // ---- One item of a pass ----

  lemma RevokeNext(before: Records, items: seq<Item>, records: Records, todo: seq<Item>, i: nat, env: Env)
    requires i < |todo|
    ensures var (next, verdict) := RevokeOne(before, items, records, todo[i], env);
      RevokeAll(before, items, records, todo[i..], env) == RevokeAll(before, items, next, todo[i + 1..], env)
      && RevokeResults(before, items, records, todo[i..], env) ==
        [Result(todo[i].file, verdict)] + RevokeResults(before, items, next, todo[i + 1..], env)
  {
    assert todo[i..][0] == todo[i] && todo[i..][1..] == todo[i + 1..];
  }

  lemma EnrollNext(before: Records, targets: set<int>, records: Records, todo: seq<Item>, i: nat, env: Env)
    requires i < |todo|
    ensures var (next, verdict) := EnrollOne(before, targets, records, todo[i], env);
      EnrollAll(before, targets, records, todo[i..], env) == EnrollAll(before, targets, next, todo[i + 1..], env)
      && EnrollResults(before, targets, records, todo[i..], env) ==
        [Result(todo[i].file, verdict)] + EnrollResults(before, targets, next, todo[i + 1..], env)
  {
    assert todo[i..][0] == todo[i] && todo[i..][1..] == todo[i + 1..];
  }

  lemma StateNext(before: Records, targets: set<int>, records: Records, todo: seq<Item>, i: nat, env: Env)
    requires i < |todo|
    ensures var (next, verdict) := StateOne(before, targets, records, todo[i], env);
      StateAll(before, targets, records, todo[i..], env) == StateAll(before, targets, next, todo[i + 1..], env)
      && StateResults(before, targets, records, todo[i..], env) ==
        [Result(todo[i].file, verdict)] + StateResults(before, targets, next, todo[i + 1..], env)
  {
    assert todo[i..][0] == todo[i] && todo[i..][1..] == todo[i + 1..];
  }

  class ApproverAdministrator {
    var records: Records
    var staged: map<nat, Item>
    var done: set<nat>

    constructor (records: Records)
      ensures this.records == records && staged == map[] && done == {}
    {
      this.records := records;
      staged := map[];
      done := {};
    }

    /** Moves a staged file to done/. */
    method Done(file: nat)
      modifies this`staged, this`done
      ensures staged == old(staged) - {file} && done == old(done) + {file}
    {
      staged := staged - {file};
      done := done + {file};
    }

    /** The first loop over the revokes: what each is worth against the snapshot, and which signers they name. */
    method EvaluateRevokes(before: Records, items: seq<Item>, env: Env)
      returns (reasons: seq<Option<Verdict>>, signers: set<int>)
      ensures |reasons| == |Of(items, Revoke)|
      ensures forall k :: 0 <= k < |reasons| ==> reasons[k] == JudgeRevoke(before, Of(items, Revoke)[k], env)
      ensures signers == RevokedSigners(before, items, env)
    {
      var todo := Of(items, Revoke);
      reasons, signers := [], {};
      var i := 0;
      while i < |todo|
        invariant 0 <= i <= |todo| && |reasons| == i
        invariant forall k :: 0 <= k < i ==> reasons[k] == JudgeRevoke(before, todo[k], env)
        invariant signers == SignersIn(before, todo[..i], env)
      {
        var item := todo[i];
        var reason := JudgeRevoke(before, item, env);
        reasons := reasons + [reason];
        SignersGrow(before, todo, i, env);
        if reason.None? && item.deviceId in before {
          signers := signers + {item.deviceId};
        }
        i := i + 1;
      }
      assert todo[..i] == todo;
      SignersOf(before, items, env);
    }

    /** One revoke of pass 1. */
    method RevokeItem(before: Records,
        items: seq<Item>, item: Item, reason: Option<Verdict>, signers: set<int>, env: Env)
      returns (verdict: Verdict, target: bool)
      requires item.kind.Revoke? && reason == JudgeRevoke(before, item, env)
      requires signers == RevokedSigners(before, items, env)
      modifies this
      ensures RevokeOne(before, items, old(records), item, env) == (records, verdict)
      ensures target <==> Honoured(before, items, item, env)
      ensures staged == old(staged) - (if StaysStaged(before, items, item, env) then {} else {item.file})
      ensures done == old(done) + (if StaysStaged(before, items, item, env) then {} else {item.file})
    {
      var finished := true;
      target := false;
      if reason.Some? {
        verdict := reason.value;
      } else if item.deviceId !in before && item.signer in signers {
        verdict := SignerNotActive;
      } else {
        target := true;
        if item.deviceId in before {
          records := MarkRevoked(records, item.deviceId, Device(item.signer), env.now);
          verdict := Revoked;
        } else {
          verdict := Deferred;
          finished := false;
        }
      }
      if finished {
        Done(item.file);
      }
    }

    /** One turn of the second loop over the revokes. */
    method RevokeAt(before: Records,
        items: seq<Item>, todo: seq<Item>, i: nat, reason: Option<Verdict>, signers: set<int>,
                    named: set<int>, env: Env)
      returns (verdict: Verdict, targets: set<int>, ghost moved: set<nat>)
      requires i < |todo| && todo[i].kind.Revoke? && reason == JudgeRevoke(before, todo[i], env)
      requires signers == RevokedSigners(before, items, env)
      requires named == HonouredIn(before, items, todo[..i], env)
      modifies this
      ensures RevokeAll(before, items, old(records), todo[i..], env)
          == RevokeAll(before, items, records, todo[i + 1..], env)
      ensures RevokeResults(before, items, old(records), todo[i..], env) ==
        [Result(todo[i].file, verdict)] + RevokeResults(before, items, records, todo[i + 1..], env)
      ensures targets == HonouredIn(before, items, todo[..i + 1], env)
      ensures Handled(before, items, todo[..i + 1], env) == Handled(before, items, todo[..i], env) + moved
      ensures staged == old(staged) - moved && done == old(done) + moved
    {
      HandledGrows(before, items, todo, i, env);
      HonouredGrows(before, items, todo, i, env);
      RevokeNext(before, items, records, todo, i, env);
      var target;
      verdict, target := RevokeItem(before, items, todo[i], reason, signers, env);
      targets := if target then named + {todo[i].deviceId} else named;
      moved := if StaysStaged(before, items, todo[i], env) then {} else {todo[i].file};
    }

    /** The second loop over the revokes. */
    method RevokeItems(before: Records,
        items: seq<Item>, todo: seq<Item>, reasons: seq<Option<Verdict>>, signers: set<int>, env: Env)
      returns (targets: set<int>, results: seq<Result>)
      requires |reasons| == |todo| && signers == RevokedSigners(before, items, env)
      requires forall k :: 0 <= k < |todo| ==> todo[k].kind.Revoke? && reasons[k] == JudgeRevoke(before, todo[k], env)
      modifies this
      ensures targets == HonouredIn(before, items, todo, env)
      ensures records == RevokeAll(before, items, old(records), todo, env)
      ensures results == RevokeResults(before, items, old(records), todo, env)
      ensures staged == old(staged) - Handled(before, items, todo, env)
      ensures done == old(done) + Handled(before, items, todo, env)
    {
      targets, results := {}, [];
      ghost var gone := Handled(before, items, [], env);
      ghost var goal := RevokeAll(before, items, records, todo, env);
      ghost var lines := RevokeResults(before, items, records, todo, env);
      var i := 0;
      while i < |todo|
        invariant 0 <= i <= |todo|
        invariant targets == HonouredIn(before, items, todo[..i], env)
        invariant goal == RevokeAll(before, items, records, todo[i..], env)
        invariant lines == results + RevokeResults(before, items, records, todo[i..], env)
        invariant gone == Handled(before, items, todo[..i], env)
        invariant staged == old(staged) - gone && done == old(done) + gone
      {
        var verdict;
        ghost var moved;
        verdict, targets, moved := RevokeAt(before, items, todo, i, reasons[i], signers, targets, env);
        MinusTwice(old(staged), gone, moved);
        gone := gone + moved;
        results := results + [Result(todo[i].file, verdict)];
        i := i + 1;
      }
      assert todo[..i] == todo;
    }

    /** Pass 1: `records` is the snapshot still. Afterwards every valid revoke is carried out or left staged. */
    method ApplyRevokes(items: seq<Item>, env: Env) returns (targets: set<int>, results: seq<Result>)
      modifies this
      ensures targets == RevokedTargets(old(records), items, env)
      ensures records == RevokeAll(old(records), items, old(records), Of(items, Revoke), env)
      ensures results == RevokeResults(old(records), items, old(records), Of(items, Revoke), env)
      ensures staged == old(staged) - Handled(old(records), items, Of(items, Revoke), env)
      ensures done == old(done) + Handled(old(records), items, Of(items, Revoke), env)
    {
      OfMembers(items, Revoke);
      TargetsOf(records, items, env);
      var reasons, signers := EvaluateRevokes(records, items, env);
      targets, results := RevokeItems(records, items, Of(items, Revoke), reasons, signers, env);
    }

    /** One enrollment, or one file that could not be read. */
    method EnrollItem(before: Records, targets: set<int>, item: Item, env: Env) returns (verdict: Verdict)
      modifies this
      ensures EnrollOne(before, targets, old(records), item, env) == (records, verdict)
      ensures staged == old(staged) - {item.file} && done == old(done) + {item.file}
    {
      var judged := JudgeEnroll(before, targets, item, env);
      if judged.Some? {
        verdict := judged.value;
      } else if item.deviceId in records && records[item.deviceId].revokedAt.Some? {
        verdict := DeviceRevoked;
      } else if item.deviceId in records {
        verdict := AlreadyEnrolled;
      } else {
        records := WriteApprover(records, item.deviceId,
                                 item.device.(enrolledBy := Device(item.signer), revokedAt := None, revokedBy := None));
        verdict := Enrolled;
      }
      Done(item.file);
    }

    /** One turn of pass 2. */
    method EnrollAt(before: Records,
        targets: set<int>, todo: seq<Item>, i: nat, soFar: seq<Result>, ghost arrived: map<nat, Item>,
                    ghost finished: set<nat>, env: Env) returns (results: seq<Result>)
      requires i < |todo| && staged == arrived - FileSet(todo[..i]) && done == finished + FileSet(todo[..i])
      modifies this
      ensures EnrollAll(before, targets, old(records), todo[i..], env)
          == EnrollAll(before, targets, records, todo[i + 1..], env)
      ensures soFar + EnrollResults(before, targets, old(records), todo[i..], env) ==
        results + EnrollResults(before, targets, records, todo[i + 1..], env)
      ensures staged == arrived - FileSet(todo[..i + 1]) && done == finished + FileSet(todo[..i + 1])
    {
      EnrollNext(before, targets, records, todo, i, env);
      FileSetGrows(todo, i);
      MinusTwice(arrived, FileSet(todo[..i]), {todo[i].file});
      var verdict := EnrollItem(before, targets, todo[i], env);
      results := soFar + [Result(todo[i].file, verdict)];
    }

    /** Pass 2: enrollments and files that could not be read. */
    method ApplyEnrollments(before: Records, targets: set<int>, items: seq<Item>, env: Env)
      returns (results: seq<Result>)
      modifies this
      ensures records == EnrollAll(before, targets, old(records), Rest(items), env)
      ensures results == EnrollResults(before, targets, old(records), Rest(items), env)
      ensures staged == old(staged) - FileSet(Rest(items)) && done == old(done) + FileSet(Rest(items))
    {
      results := EnrollItems(before, targets, Rest(items), env);
    }

    method EnrollItems(before: Records, targets: set<int>, todo: seq<Item>, env: Env) returns (results: seq<Result>)
      modifies this
      ensures records == EnrollAll(before, targets, old(records), todo, env)
      ensures results == EnrollResults(before, targets, old(records), todo, env)
      ensures staged == old(staged) - FileSet(todo) && done == old(done) + FileSet(todo)
    {
      results := [];
      ghost var goal := EnrollAll(before, targets, records, todo, env);
      ghost var lines := EnrollResults(before, targets, records, todo, env);
      var i := 0;
      while i < |todo|
        invariant 0 <= i <= |todo|
        invariant goal == EnrollAll(before, targets, records, todo[i..], env)
        invariant lines == results + EnrollResults(before, targets, records, todo[i..], env)
        invariant staged == old(staged) - FileSet(todo[..i]) && done == old(done) + FileSet(todo[..i])
      {
        results := EnrollAt(before, targets, todo, i, results, old(staged), old(done), env);
        i := i + 1;
      }
      assert todo[..i] == todo;
    }

    /** One turn of pass 3. */
    method StateAt(before: Records,
        targets: set<int>, todo: seq<Item>, i: nat, soFar: seq<Result>, ghost arrived: map<nat, Item>,
                    ghost finished: set<nat>, env: Env) returns (results: seq<Result>)
      requires i < |todo| && staged == arrived - FileSet(todo[..i]) && done == finished + FileSet(todo[..i])
      modifies this
      ensures StateAll(before, targets, old(records), todo[i..], env)
          == StateAll(before, targets, records, todo[i + 1..], env)
      ensures soFar + StateResults(before, targets, old(records), todo[i..], env) ==
        results + StateResults(before, targets, records, todo[i + 1..], env)
      ensures staged == arrived - FileSet(todo[..i + 1]) && done == finished + FileSet(todo[..i + 1])
    {
      StateNext(before, targets, records, todo, i, env);
      FileSetGrows(todo, i);
      MinusTwice(arrived, FileSet(todo[..i]), {todo[i].file});
      Done(todo[i].file);
      var verdict := ApplyKeyStatement(before, targets, todo[i], env);
      results := soFar + [Result(todo[i].file, verdict)];
    }

    /** Pass 3: what devices say of their own keys, read keys and then box keys, each newest first. */
    method ApplyStatements(before: Records, targets: set<int>, items: seq<Item>, env: Env)
      returns (results: seq<Result>)
      modifies this
      ensures records == StateAll(before, targets, old(records), Statements(items), env)
      ensures results == StateResults(before, targets, old(records), Statements(items), env)
      ensures staged == old(staged) - FileSet(Statements(items)) && done == old(done) + FileSet(Statements(items))
    {
      results := StateItems(before, targets, Statements(items), env);
    }

    method StateItems(before: Records, targets: set<int>, todo: seq<Item>, env: Env) returns (results: seq<Result>)
      modifies this
      ensures records == StateAll(before, targets, old(records), todo, env)
      ensures results == StateResults(before, targets, old(records), todo, env)
      ensures staged == old(staged) - FileSet(todo) && done == old(done) + FileSet(todo)
    {
      results := [];
      ghost var goal := StateAll(before, targets, records, todo, env);
      ghost var lines := StateResults(before, targets, records, todo, env);
      var i := 0;
      while i < |todo|
        invariant 0 <= i <= |todo|
        invariant goal == StateAll(before, targets, records, todo[i..], env)
        invariant lines == results + StateResults(before, targets, records, todo[i..], env)
        invariant staged == old(staged) - FileSet(todo[..i]) && done == old(done) + FileSet(todo[..i])
      {
        results := StateAt(before, targets, todo, i, results, old(staged), old(done), env);
        i := i + 1;
      }
      assert todo[..i] == todo;
    }

    /** One key statement, judged against the snapshot and the record as it is now. */
    method ApplyKeyStatement(before: Records, targets: set<int>, item: Item, env: Env) returns (verdict: Verdict)
      modifies this`records
      ensures records == StateOne(before, targets, old(records), item, env).0
      ensures verdict == StateOne(before, targets, old(records), item, env).1
    {
      var outdated := Outdated(item, env);
      if outdated.Some? {
        return outdated.value;
      }
      if item.deviceId in targets {
        return DeviceRevoked;
      }
      if item.signer != item.deviceId || !Signed(before, item, env) {
        return SignerNotActive;
      }
      if item.deviceId !in records || records[item.deviceId].revokedAt.Some? {
        return DeviceRevoked;
      }
      var r := records[item.deviceId];
      var judged := JudgeKey(r, item, env);
      if judged.Some? {
        return judged.value;
      }
      var key := Some(Key(item.point, item.createdAt));
      records :=
        WriteApprover(records, item.deviceId, if item.kind.ReadKey? then r.(readKey := key) else r.(boxKey := key));
      verdict := KeySet;
    }

    /**
     * A confirmed batch leaves the records of ApproverAdmin.Batch, one result for each staged file, and staged
     * exactly the deferred revokes and the files it could not safely act on. One that is not confirmed changes
     * nothing.
     */
    method ApplyStaged(items: seq<Item>, confirmed: bool, env: Env) returns (results: seq<Result>)
      requires Listing(items, staged)
      modifies this
      ensures items == [] || !confirmed ==>
            records == old(records) && staged == old(staged) && done == old(done) && results == []
      ensures confirmed ==> records == Batch(old(records), items, env) && results == Results(old(records), items, env)
      ensures confirmed ==>
                staged == map file | file in old(staged) && StaysStaged(old(records), items, old(staged)[file], env) ::
                            old(staged)[file]
    {
      if items == [] || !confirmed {
        if items == [] {
          assert staged == map[];
        }
        return [];
      }
      var before := records;
      var targets, a := ApplyRevokes(items, env);
      var b := ApplyEnrollments(before, targets, items, env);
      var c := ApplyStatements(before, targets, items, env);
      results := a + b + c + UnsafeResults(Of(items, Unsafe));
      WhatStays(before, items, old(staged), env);
    }
  }

  function FileSet(todo: seq<Item>): set<nat> {
    set item | item in todo :: item.file
  }

  lemma FileSetGrows(todo: seq<Item>, i: nat)
    requires i < |todo|
    ensures FileSet(todo[..i + 1]) == FileSet(todo[..i]) + {todo[i].file}
  {
    assert todo[..i + 1] == todo[..i] + [todo[i]];
  }

  lemma {:induction false} InsertMembers(item: Item, items: seq<Item>)
    ensures forall x :: x in Insert(item, items) <==> x == item || x in items
    decreases |items|
  {
    if items != [] {
      InsertMembers(item, items[1..]);
      assert items == [items[0]] + items[1..];
    }
  }

  lemma {:induction false} NewestFirstMembers(items: seq<Item>)
    ensures forall x :: x in NewestFirst(items) <==> x in items
    decreases |items|
  {
    if items != [] {
      NewestFirstMembers(items[1..]);
      InsertMembers(items[0], NewestFirst(items[1..]));
      assert items == [items[0]] + items[1..];
    }
  }

  lemma StatementsMembers(items: seq<Item>)
    ensures forall x :: x in Statements(items) <==> x in items && (x.kind.ReadKey? || x.kind.BoxKey?)
  {
    OfMembers(items, ReadKey);
    OfMembers(items, BoxKey);
    NewestFirstMembers(Of(items, ReadKey));
    NewestFirstMembers(Of(items, BoxKey));
  }

  lemma FileOf(items: seq<Item>, staged: map<nat, Item>, todo: seq<Item>, file: nat)
    requires Listing(items, staged) && file in staged && (forall item | item in todo :: item in items)
    ensures file in FileSet(todo) <==> staged[file] in todo
  {
  }

  lemma HandledOf(before: Records, items: seq<Item>, staged: map<nat, Item>, env: Env, file: nat)
    requires Listing(items, staged) && file in staged
    ensures file in Handled(before, items, Of(items, Revoke), env) <==>
      staged[file].kind.Revoke? && !StaysStaged(before, items, staged[file], env)
  {
    OfMembers(items, Revoke);
  }

  /** The files the three passes move are all but those that stay. */
  lemma HandledFiles(before: Records, items: seq<Item>, staged: map<nat, Item>, env: Env, file: nat)
    requires Listing(items, staged) && file in staged
    ensures (file in Handled(before, items, Of(items, Revoke), env) || file in FileSet(Rest(items))
             || file in FileSet(Statements(items))) <==> !StaysStaged(before, items, staged[file], env)
  {
    RestMembers(items);
    StatementsMembers(items);
    HandledOf(before, items, staged, env, file);
    FileOf(items, staged, Rest(items), file);
    FileOf(items, staged, Statements(items), file);
  }

  lemma WhatStays(before: Records, items: seq<Item>, staged: map<nat, Item>, env: Env)
    requires Listing(items, staged)
    ensures staged - Handled(before, items, Of(items, Revoke), env) - FileSet(Rest(items)) - FileSet(Statements(items))
      == map file | file in staged && StaysStaged(before, items, staged[file], env) :: staged[file]
  {
    forall file | file in staged
      ensures (file in Handled(before, items, Of(items, Revoke), env) || file in FileSet(Rest(items))
               || file in FileSet(Statements(items))) <==> !StaysStaged(before, items, staged[file], env)
    {
      HandledFiles(before, items, staged, env, file);
    }
  }
}
