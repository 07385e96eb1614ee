/**
 * The revoke overlay of a running service over any run of relayed messages, restarts and what administrators do
 * meanwhile.
 */
module ApproverOverlays {
  import opened Basics
  import opened ApproverAdmin
  import opened ApproverBatch
  import opened ApproverRuns
  import opened ApproverStores

  datatype Settings = Settings(allowTestKeys: bool, published: set<int>)

  /**
   * The service's store, the records that the administrator's commands write and the service reads, and whether the
   * service trusts the directory they are in: what its last check of it found.
   */
  datatype World = World(store: Store, records: Records, settings: Settings, trusted: bool)

  /**
   * Restart: a service starts, checks the directory and builds its overlay, from nothing if the staged files cannot be
   * listed. Reprobe: a later check, on Windows; the overlay stays as it is. ApplyStaged has its own verdict on the
   * directory.
   */
  datatype Event =
    | Relay(item: Item, expiresAt: int, written: bool, now: int)
    | Restart(trusted: bool, readable: bool)
    | Reprobe(trusted: bool)
    | EnrollAtConsole(id: int, device: Record)
    | RevokeAtConsole(id: int, now: int)
    | ApplyStaged(now: int, trusted: bool)

  function At(settings: Settings, now: int, trusted: bool): Env {
    Env(now, settings.allowTestKeys, trusted, settings.published)
  }

  /** What the service would see if it trusted the directory. No check of a revoke's signer looks at the clock. */
  function Trusting(settings: Settings): Env {
    At(settings, 0, true)
  }

  function Staying(before: Records, items: seq<Item>, todo: seq<Item>, env: Env): seq<Item> {
    if todo == [] then []
    else (if StaysStaged(before, items, todo[0], env) then [todo[0]] else []) + Staying(before, items, todo[1..], env)
  }

  function Files(items: seq<Item>): set<nat> {
    set item | item in items :: item.file
  }

  /** `device apply` works on the directories; the overlay of the running service stays as it is. */
  function Take(w: World, event: Event): World {
    match event
    case Relay(item, expiresAt, written, now) =>
      w.(store := Stage(w.store, w.records, item, expiresAt, written, At(w.settings, now, w.trusted)).0)
    case Restart(trusted, readable) =>
      w.(store := if readable then Rebuild(w.store, w.records, At(w.settings, 0, trusted)) else w.store.(overlay := {}),
         trusted := trusted)
    case Reprobe(trusted) => w.(trusted := trusted)
    case EnrollAtConsole(id, device) => w.(records := Do(w.records, ConsoleEnroll(id, device)))
    case RevokeAtConsole(id, now) => w.(records := Do(w.records, ConsoleRevoke(id, now)))
    case ApplyStaged(now, trusted) =>
      var items, env := w.store.staged, At(w.settings, now, trusted);
      var stay := Staying(w.records, items, items, env);
      w.(store := w.store.(staged := stay, done := w.store.done + (Files(items) - Files(stay))),
         records := Do(w.records, Apply(items, env)))
  }

  function After(w: World, events: seq<Event>): World
    decreases events
  {
    if events == [] then w else After(Take(w, events[0]), events[1..])
  }

  // ---- What is in force ----

  /** A staged revoke that checks out. */
  predicate Standing(w: World, item: Item) {
    && item in w.store.staged && item.kind.Revoke? && item.wellFormed
    && RevokeChecks(w.records, item, Trusting(w.settings))
  }

  /** Every staged revoke that checks out blocks its device. */
  predicate InForce(w: World) {
    forall item | item in w.store.staged :: Standing(w, item) ==> item.deviceId in w.store.overlay
  }

  predicate RevokedRecord(records: Records, id: int) {
    id in records && records[id].revokedAt.Some?
  }

  /** Every staged revoke checks out, or whoever signed it has been revoked since. */
  predicate Settled(w: World) {
    forall item | item in w.store.staged && item.kind.Revoke? ::
      RevokeChecks(w.records, item, Trusting(w.settings)) || RevokedRecord(w.records, item.signer)
  }

  /**
   * What the console has checked of an enrollment: its id derives from its key, it is no demo device, its keys are
   * its own.
   */
  predicate Checked(records: Records, id: int, device: Record, settings: Settings) {
    && (id in records ==> device.publicKey == records[id].publicKey)
    && !device.demo && (settings.allowTestKeys || !HasTestKey(device, Trusting(settings)))
  }

  predicate Fair(w: World, event: Event) {
    event.EnrollAtConsole? ==> Checked(w.records, event.id, event.device, w.settings)
  }

  predicate AllFair(w: World, events: seq<Event>)
    decreases events
  {
    events != [] ==> Fair(w, events[0]) && AllFair(Take(w, events[0]), events[1..])
  }

  // ---- Since the last start ----

  /**
   * Whether the last start trusted the directory and could list the staged files, and the devices whose revokes the
   * service has taken since.
   */
  datatype Since = Since(built: bool, taken: set<int>)

  /** The device of a revoke that the service takes in this step; its file may fail to be written. */
  function Taken(w: World, event: Event): set<int> {
    if event.Relay? && event.item.kind.Revoke? then
      var answer := Stage(w.store, w.records, event.item, event.expiresAt, event.written,
                          At(w.settings, event.now, w.trusted)).1;
      if answer == RevokedPendingApply || answer == Rejected(NotWritten) then {event.item.deviceId} else {}
    else {}
  }

  function Next(w: World, event: Event, since: Since): Since {
    match event
    case Restart(trusted, readable) => Since(trusted && readable, {})
    case _ => since.(taken := since.taken + Taken(w, event))
  }

  function SinceAfter(w: World, events: seq<Event>, since: Since): Since
    decreases events
  {
    if events == [] then since else SinceAfter(Take(w, events[0]), events[1..], Next(w, events[0], since))
  }

  /** After a start that built the overlay all is in force; after one that could not, what was taken since. */
  predicate Kept(w: World, since: Since) {
    if since.built then InForce(w) else w.store.overlay == since.taken
  }

  // ---- Messages, starts and checks ----

  /** Who is in use depends on the settings alone. */
  lemma SameActive(records: Records, a: Env, b: Env)
    requires a.allowTestKeys == b.allowTestKeys && a.published == b.published
    ensures Active(records, a) == Active(records, b)
  {
    assert forall id :: id in Active(records, a) <==> id in Active(records, b);
  }

  lemma TrustedChecks(records: Records, settings: Settings, now: int, item: Item)
    ensures RevokeChecks(records, item, At(settings, now, true)) <==> RevokeChecks(records, item, Trusting(settings))
    ensures !RevokeChecks(records, item, At(settings, now, false))
  {
    SameActive(records, At(settings, now, true), Trusting(settings));
  }

  /** A message changes the overlay and the staged revokes exactly when it is a revoke that is taken. */
  lemma RelayTakes(w: World, event: Event)
    requires event.Relay?
    ensures var next := Take(w, event);
      && next.store.overlay == w.store.overlay + Taken(w, event)
      && (forall item | item in next.store.staged && item.kind.Revoke? && item !in w.store.staged ::
            item == event.item && item.wellFormed && item.deviceId in Taken(w, event)
            && RevokeChecks(w.records, item, Trusting(w.settings)))
  {
    TrustedChecks(w.records, w.settings, event.now, event.item);
  }

  lemma RelayKeeps(w: World, event: Event, since: Since)
    requires event.Relay? && Kept(w, since) && Settled(w)
    ensures Kept(Take(w, event), Next(w, event, since)) && Settled(Take(w, event))
  {
    RelayTakes(w, event);
    if since.built {
      forall item | item in Take(w, event).store.staged && Standing(Take(w, event), item)
        ensures item.deviceId in Take(w, event).store.overlay
      {
        assert item in w.store.staged ==> Standing(w, item);
      }
    }
  }

  /**
   * A start that trusts the directory and can list the staged files puts every staged revoke that checks out in
   * force; any other puts none.
   */
  lemma RestartKeeps(w: World, trusted: bool, readable: bool)
    ensures Kept(Take(w, Restart(trusted, readable)), Since(trusted && readable, {}))
    ensures Settled(w) ==> Settled(Take(w, Restart(trusted, readable)))
  {
    var env := At(w.settings, 0, trusted);
    forall item
      ensures RevokeChecks(w.records, item, env) <==> trusted && RevokeChecks(w.records, item, Trusting(w.settings))
    {
      TrustedChecks(w.records, w.settings, 0, item);
    }
  }

  // ---- What an administrator does ----

  /** A signer that counted still counts, with its key, or is revoked; and a revoked one stays so. */
  predicate SignerFollows(a: Records, b: Records, id: int, env: Env) {
    && (id in Applied(a, env) ==> RevokedRecord(b, id) || (id in Applied(b, env) && b[id].publicKey == a[id].publicKey))
    && (RevokedRecord(a, id) ==> RevokedRecord(b, id))
  }

  /** Staged files may go and records may move on: no staged revoke comes to check out that did not. */
  lemma RecordsMove(w: World, store: Store, records: Records, since: Since)
    requires Kept(w, since) && Settled(w) && store.overlay == w.store.overlay
    requires forall item | item in store.staged :: item in w.store.staged
    requires forall id :: SignerFollows(w.records, records, id, Trusting(w.settings))
    ensures var next := w.(store := store, records := records); Kept(next, since) && Settled(next)
  {
    var env := Trusting(w.settings);
    forall item | item in store.staged && item.kind.Revoke?
      ensures RevokeChecks(records, item, env) || RevokedRecord(records, item.signer)
      ensures RevokeChecks(records, item, env) ==> RevokeChecks(w.records, item, env)
    {
      assert SignerFollows(w.records, records, item.signer, env);
    }
  }

  lemma ConsoleFollows(records: Records, id: int, device: Record, settings: Settings, x: int)
    requires Checked(records, id, device, settings)
    ensures SignerFollows(records, Do(records, ConsoleEnroll(id, device)), x, Trusting(settings))
  {
  }

  lemma ConsoleRevokeFollows(records: Records, id: int, now: int, env: Env, x: int)
    ensures SignerFollows(records, Do(records, ConsoleRevoke(id, now)), x, env)
  {
  }

  /** A batch marks the devices it takes out of use. */
  lemma TargetIsMarked(before: Records, items: seq<Item>, env: Env, id: int)
    requires id in Active(before, env) && id in RevokedTargets(before, items, env)
    ensures RevokedRecord(Batch(before, items, env), id)
  {
    var targets := RevokedTargets(before, items, env);
    var revokes := Of(items, Revoke);
    var revoked := RevokeAll(before, items, before, revokes, env);
    var enrolled := EnrollAll(before, targets, revoked, Rest(items), env);
    OfMembers(items, Revoke);
    RevokeAllActive(before, items, before, revokes, env);
    assert id in HonouredIn(before, items, revokes, env);
    RevokesFollow(before, items, before, revokes, env);
    RevokeAllKeepsKeys(before, items, before, revokes, env);
    assert Follows(before[id], revoked[id]) && RevokedRecord(revoked, id);
    EnrollsFollow(before, targets, revoked, Rest(items), env);
    StatementsFollow(before, targets, enrolled, Statements(items), env);
    assert enrolled[id] == revoked[id] && Batch(before, items, env)[id] == enrolled[id];
  }

  /** Whatever the command's own verdict on the directory was. */
  lemma BatchSignerFollows(before: Records, items: seq<Item>, settings: Settings, now: int, trusted: bool, id: int)
    ensures SignerFollows(before, Batch(before, items, At(settings, now, trusted)), id, Trusting(settings))
  {
    var at, env := At(settings, now, trusted), Trusting(settings);
    var after := Batch(before, items, at);
    BatchFollows(before, items, at);
    SameActive(before, at, env);
    SameActive(after, at, env);
    if id in before {
      assert Follows(before[id], after[id]);
    }
    if id in Active(before, at) {
      if id in RevokedTargets(before, items, at) {
        TargetIsMarked(before, items, at, id);
      } else {
        BatchActiveAt(before, items, at, id);
      }
    }
  }

  lemma {:induction false} StayingAreStaged(before: Records, items: seq<Item>, todo: seq<Item>, env: Env)
    ensures forall item | item in Staying(before, items, todo, env) ::
          item in todo && StaysStaged(before, items, item, env)
    decreases |todo|
  {
    if todo != [] {
      StayingAreStaged(before, items, todo[1..], env);
    }
  }

  lemma AdministratorKeeps(w: World, event: Event, since: Since)
    requires event.EnrollAtConsole? || event.RevokeAtConsole? || event.ApplyStaged?
    requires Fair(w, event) && Kept(w, since) && Settled(w)
    ensures Kept(Take(w, event), since) && Settled(Take(w, event))
  {
    var next := Take(w, event);
    match event {
      case EnrollAtConsole(id, device) =>
        forall x ensures SignerFollows(w.records, next.records, x, Trusting(w.settings)) {
          ConsoleFollows(w.records, id, device, w.settings, x);
        }
      case RevokeAtConsole(id, now) =>
        forall x ensures SignerFollows(w.records, next.records, x, Trusting(w.settings)) {
          ConsoleRevokeFollows(w.records, id, now, Trusting(w.settings), x);
        }
      case ApplyStaged(now, trusted) =>
        StayingAreStaged(w.records, w.store.staged, w.store.staged, At(w.settings, now, trusted));
        forall x ensures SignerFollows(w.records, next.records, x, Trusting(w.settings)) {
          BatchSignerFollows(w.records, w.store.staged, w.settings, now, trusted, x);
        }
    }
    RecordsMove(w, next.store, next.records, since);
  }

  // ---- Over every run ----

  lemma {:induction false} RunKeeps(w: World, events: seq<Event>, since: Since)
    requires Kept(w, since) && Settled(w) && AllFair(w, events)
    ensures Kept(After(w, events), SinceAfter(w, events, since)) && Settled(After(w, events))
    decreases |events|
  {
    if events != [] {
      match events[0] {
        case Relay(_, _, _, _) => RelayKeeps(w, events[0], since);
        case Restart(trusted, readable) => RestartKeeps(w, trusted, readable);
        case Reprobe(_) =>
        case _ => AdministratorKeeps(w, events[0], since);
      }
      RunKeeps(Take(w, events[0]), events[1..], Next(w, events[0], since));
    }
  }

  /**
   * Over any run of relayed messages, starts, checks of the directory, enrollments and revocations at the console and
   * batches: a staged revoke that checks out blocks its device if and only if the last start trusted the directory
   * and could list the staged files, or the service has taken a revoke of that device since.
   */
  lemma StagedRevokesHold(w: World, events: seq<Event>, item: Item)
    requires InForce(w) && Settled(w) && AllFair(w, events) && Standing(After(w, events), item)
    ensures var since := SinceAfter(w, events, Since(true, {}));
      item.deviceId in After(w, events).store.overlay <==> since.built || item.deviceId in since.taken
  {
    RunKeeps(w, events, Since(true, {}));
  }

  /** Every start can list the staged files, and the directory is checked only at a start. */
  predicate ChecksAtStarts(events: seq<Event>) {
    forall event | event in events :: !event.Reprobe? && (event.Restart? ==> event.readable)
  }

  lemma {:induction false} StartDecides(w: World, events: seq<Event>, since: Since)
    requires ChecksAtStarts(events) && w.trusted == since.built
    ensures After(w, events).trusted == SinceAfter(w, events, since).built
    decreases |events|
  {
    if events != [] {
      assert events[0] in events;
      StartDecides(Take(w, events[0]), events[1..], Next(w, events[0], since));
    }
  }

  /** Then no device that a standing staged revoke names is ever active, whatever the starts find. */
  lemma RevokedStaysInactive(w: World, events: seq<Event>, item: Item, now: int)
    requires w.trusted && InForce(w) && Settled(w) && AllFair(w, events) && ChecksAtStarts(events)
    requires Standing(After(w, events), item)
    ensures var after := After(w, events);
      !IsActive(after.store, after.records, item.deviceId, At(after.settings, now, after.trusted))
  {
    StagedRevokesHold(w, events, item);
    StartDecides(w, events, Since(true, {}));
  }

  /**
   * The run that shows the rest: a service starts while the directory is not trusted, and then it is. Its overlay was
   * built from nothing, and a device that a staged revoke names is active.
   */
  lemma UntrustedStartForgets(w: World, item: Item, now: int)
    requires Standing(w, item) && item.deviceId in Active(w.records, Trusting(w.settings))
    ensures var after := After(w, [Restart(false, true), Reprobe(true)]);
      && Standing(after, item) && !InForce(after)
      && IsActive(after.store, after.records, item.deviceId, At(after.settings, now, after.trusted))
  {
    var started := Take(w, Restart(false, true));
    RestartKeeps(w, false, true);
    var none: seq<Event> := [];
    assert [Restart(false, true), Reprobe(true)][1..] == [Reprobe(true)] && [Reprobe(true)][1..] == none;
    assert After(started, [Reprobe(true)]) == After(Take(started, Reprobe(true)), none);
    SameActive(w.records, Trusting(w.settings), At(w.settings, now, true));
  }

  // ---- A revoke that waits for its device ----

  /** At every batch of the run the revoke is honoured, and nobody enrolls its device at the console. */
  predicate HonouredThroughout(w: World, events: seq<Event>, item: Item)
    decreases events
  {
    events != [] ==>
      && (events[0].ApplyStaged? ==>
            Honoured(w.records, w.store.staged, item, At(w.settings, events[0].now, events[0].trusted)))
      && (events[0].EnrollAtConsole? ==> events[0].id != item.deviceId)
      && HonouredThroughout(Take(w, events[0]), events[1..], item)
  }

  lemma {:induction false} StayingHolds(before: Records, items: seq<Item>, todo: seq<Item>, env: Env, item: Item)
    requires item in todo && StaysStaged(before, items, item, env)
    ensures item in Staying(before, items, todo, env)
    decreases |todo|
  {
    if todo[0] != item {
      StayingHolds(before, items, todo[1..], env, item);
    }
  }

  lemma {:induction false} EnrollsOnlyEnrollable(before: Records, targets: set<int>, records: Records, todo: seq<Item>,
      env: Env, id: int)
    requires id in targets && id !in records
    ensures id !in EnrollAll(before, targets, records, todo, env)
    decreases |todo|
  {
    if todo != [] {
      EnrollsOnlyEnrollable(before, targets, EnrollOne(before, targets, records, todo[0], env).0, todo[1..], env, id);
    }
  }

  lemma {:induction false} StatesAddNobody(before: Records, targets: set<int>, records: Records, todo: seq<Item>,
      env: Env, id: int)
    requires id !in records
    ensures id !in StateAll(before, targets, records, todo, env)
    decreases |todo|
  {
    if todo != [] {
      StatesAddNobody(before, targets, StateOne(before, targets, records, todo[0], env).0, todo[1..], env, id);
    }
  }

  /** No batch gives a record to a device that one of its honoured revokes names. */
  lemma TargetGetsNoRecord(before: Records, items: seq<Item>, env: Env, item: Item)
    requires item in items && Honoured(before, items, item, env) && item.deviceId !in before
    ensures item.deviceId !in Batch(before, items, env)
  {
    var id, targets, revokes := item.deviceId, RevokedTargets(before, items, env), Of(items, Revoke);
    var revoked := RevokeAll(before, items, before, revokes, env);
    OfMembers(items, Revoke);
    RevokeAllActive(before, items, before, revokes, env);
    EnrollsOnlyEnrollable(before, targets, revoked, Rest(items), env, id);
    StatesAddNobody(before, targets, EnrollAll(before, targets, revoked, Rest(items), env), Statements(items), env, id);
  }

  lemma DeferredStep(w: World, event: Event, item: Item)
    requires item in w.store.staged && item.deviceId !in w.records && HonouredThroughout(w, [event], item)
    ensures item in Take(w, event).store.staged && item.deviceId !in Take(w, event).records
  {
    if event.ApplyStaged? {
      var env := At(w.settings, event.now, event.trusted);
      assert [event][0] == event;
      StayingHolds(w.records, w.store.staged, w.store.staged, env, item);
      TargetGetsNoRecord(w.records, w.store.staged, env, item);
    }
  }

  /**
   * A revoke of a device that nobody has enrolled yet: as long as every batch honours it, it stays staged and its
   * device gets no record, whatever else is relayed, started, applied or done at the console.
   */
  lemma {:induction false} DeferredRevokeHolds(w: World, events: seq<Event>, item: Item)
    requires item in w.store.staged && item.deviceId !in w.records && HonouredThroughout(w, events, item)
    ensures item in After(w, events).store.staged && item.deviceId !in After(w, events).records
    decreases |events|
  {
    if events != [] {
      var none: seq<Event> := [];
      assert [events[0]][1..] == none;
      DeferredStep(w, events[0], item);
      DeferredRevokeHolds(Take(w, events[0]), events[1..], item);
    }
  }

  /** A standing one is honoured within a week of its date, unless a revoke of the batch names its signer. */
  lemma HonouredExactlyWhen(w: World, item: Item, now: int, trusted: bool)
    requires Standing(w, item) && item.deviceId !in w.records
    ensures Honoured(w.records, w.store.staged, item, At(w.settings, now, trusted)) <==>
      && trusted && item.createdAt - now <= SKEW_MS && now <= item.createdAt + WEEK_MS
      && item.signer !in RevokedSigners(w.records, w.store.staged, At(w.settings, now, trusted))
  {
    TrustedChecks(w.records, w.settings, now, item);
  }

  // ---- What the administrator's commands leave ----

  /** The console changes the records alone: the running service's overlay and the staged files stay as they are. */
  lemma ConsoleLeaves(w: World, id: int, device: Record, now: int)
    ensures var enrolled, revoked := Take(w, EnrollAtConsole(id, device)), Take(w, RevokeAtConsole(id, now));
            && enrolled.store == revoked.store == w.store && enrolled.trusted == revoked.trusted == w.trusted
            && enrolled.records == Do(w.records, ConsoleEnroll(id, device))
            && revoked.records == Do(w.records, ConsoleRevoke(id, now))
  {
  }

  lemma {:induction false} StayingAre(before: Records, items: seq<Item>, todo: seq<Item>, env: Env, item: Item)
    ensures item in Staying(before, items, todo, env) <==> item in todo && StaysStaged(before, items, item, env)
    decreases |todo|
  {
    if todo != [] {
      StayingAre(before, items, todo[1..], env, item);
      assert todo == [todo[0]] + todo[1..];
    }
  }

  /** `device apply` leaves the records of the batch, staged exactly what stays, and done what no longer is. */
  lemma ApplyLeaves(w: World, now: int, trusted: bool, item: Item)
    ensures var after, items := Take(w, ApplyStaged(now, trusted)), w.store.staged;
            var env := Env(now, w.settings.allowTestKeys, trusted, w.settings.published);
            && after.records == Batch(w.records, items, env)
            && after.store.overlay == w.store.overlay && after.trusted == w.trusted
            && (item in after.store.staged <==> item in items && StaysStaged(w.records, items, item, env))
            && (item in items && (forall x | x in after.store.staged :: x.file != item.file) ==>
                  item.file in after.store.done)
            && w.store.done <= after.store.done
  {
    StayingAre(w.records, w.store.staged, w.store.staged, At(w.settings, now, trusted), item);
  }
}
