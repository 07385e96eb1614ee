/**
 * Whether a node must seal what it sends, and to whom (src/approvals/seal-policy.js): a flag on disk that is only ever
 * set, held in memory while it cannot be written.
 */
module SealPolicy {
  import opened Basics

  /** What is at the latch's path: nothing, a latch, or something that is no latch. */
  datatype File = NoFile | Latch | Junk

  datatype Read = Unlatched | Good | Bad

  /** unwritten: this process owes the file a latch. logged: it has said so. */
  datatype State = State(file: File, unwritten: bool, logged: bool)

  /**
   * What a call meets. devices: the active devices with a box key; readable: the path could be read; writable: a
   * write would work.
   */
  datatype World = World(devices: map<int, int>, readable: bool, writable: bool)

  datatype Seen = Seen(devices: map<int, int>, durable: bool, latched: bool)

  /** Where the path cannot be read there might be a latch. */
  function ReadLatch(file: File, readable: bool): Read {
    if !readable then Bad
    else match file case NoFile => Unlatched case Latch => Good case Junk => Bad
  }

  function Look(s: State, w: World): (State, Seen) {
    var read := ReadLatch(s.file, w.readable);
    if read.Good? then (s.(unwritten := false), Seen(w.devices, true, true))
    else if w.devices != map[] || s.unwritten then
      if w.writable then (State(Latch, false, false), Seen(w.devices, true, true))
      else (s.(unwritten := true, logged := true), Seen(w.devices, false, true))
    else (s, Seen(w.devices, false, read.Bad?))
  }

  predicate Sealing(s: State, w: World) {
    Look(s, w).1.latched || w.devices != map[]
  }

  predicate CanSeal(s: State, w: World, box: Option<int>) {
    box.Some? && Look(s, w).1.durable && w.devices != map[]
  }

  function Recipients(s: State, w: World, box: Option<int>, self: int, trusted: bool): map<int, int> {
    if !trusted || !Look(s, w).1.durable then map[]
    else if box.Some? then w.devices[self := box.value]
    else w.devices
  }

  datatype Event = LookAgain(world: World) | Restart

  function Step(s: State, event: Event): State {
    match event
    case LookAgain(w) => Look(s, w).0
    case Restart => State(s.file, false, false)
  }

  function Run(s: State, events: seq<Event>): State
    decreases events
  {
    if events == [] then s else Run(Step(s, events[0]), events[1..])
  }

  // ---- Once sealing, always sealing ----

  /** What makes a node seal whatever it meets next. */
  predicate Held(s: State) {
    s.file != NoFile || s.unwritten
  }

  /** A look that saw a device, or found something held, leaves it held. */
  lemma LookHolds(s: State, w: World)
    ensures Held(Look(s, w).0) <==> Held(s) || w.devices != map[]
    ensures Look(s, w).0.file == NoFile ==> s.file == NoFile
  {
  }

  lemma {:induction false} HeldStays(s: State, events: seq<Event>)
    requires Held(s) && (s.file == NoFile ==> Restart !in events)
    ensures Held(Run(s, events)) && (s.file != NoFile ==> Run(s, events).file != NoFile)
    decreases |events|
  {
    if events != [] {
      assert events[0] in events;
      if events[0].LookAgain? {
        LookHolds(s, events[0].world);
      }
      HeldStays(Step(s, events[0]), events[1..]);
    }
  }

  lemma HeldSeals(s: State)
    ensures Held(s) <==> forall w :: Sealing(s, w)
  {
    if Held(s) {
      forall w ensures Sealing(s, w) {
      }
    } else {
      assert !Sealing(s, World(map[], true, false));
    }
  }

  /** Whatever this process meets from here on, it seals. */
  ghost predicate SealsFromHere(s: State) {
    forall events, later {:trigger Sealing(Run(s, events), later)} | Restart !in events ::
          Sealing(Run(s, events), later)
  }

  lemma HeldSealsFromHere(s: State)
    ensures SealsFromHere(s) <==> Held(s)
  {
    if Held(s) {
      forall events, later | Restart !in events ensures Sealing(Run(s, events), later) {
        HeldStays(s, events);
        HeldSeals(Run(s, events));
      }
    } else {
      var none: seq<Event> := [];
      assert Restart !in none && Run(s, none) == s;
      assert !Sealing(Run(s, none), World(map[], true, false));
    }
  }

  /**
   * Once sealing() has said yes it says yes ever after in this process, if and only if a device was there, the latch's
   * path held something or a write was owed: a path that merely could not be read once is forgotten when it can be.
   */
  lemma SealingStaysExactlyWhen(s: State, w: World)
    requires Sealing(s, w)
    ensures SealsFromHere(Look(s, w).0) <==> w.devices != map[] || Held(s)
  {
    LookHolds(s, w);
    HeldSealsFromHere(Look(s, w).0);
  }

  /** The run that shows it: with no device and no file, a path that cannot be read seals, and the next look ends it. */
  lemma UnreadableOnceIsForgotten()
    ensures var s := State(NoFile, false, false);
      var unreadable, readable := World(map[], false, true), World(map[], true, true);
      Sealing(s, unreadable) && !Sealing(Run(s, [LookAgain(unreadable)]), readable)
  {
    var s, unreadable := State(NoFile, false, false), World(map[], false, true);
    assert [LookAgain(unreadable)][1..] == [];
    assert Run(s, [LookAgain(unreadable)]) == s;
  }

  /** Sealing survives restarts as well once something is at the latch's path. */
  lemma LatchedSurvivesRestarts(s: State, events: seq<Event>, w: World)
    requires s.file != NoFile
    ensures Sealing(Run(s, events), w)
  {
    HeldStays(s, events);
    HeldSeals(Run(s, events));
  }

  /** And only then: a restart forgets a latch that could not be written. */
  lemma UnwrittenIsForgotten(s: State)
    requires s.file == NoFile
    ensures exists w :: !Sealing(Step(s, Restart), w)
  {
    assert !Sealing(Step(s, Restart), World(map[], true, false));
  }

  // ---- Nothing leaves before the latch is on disk ----

  /** Who can seal must seal, and the latch is on disk by then. */
  lemma CanSealMeansLatched(s: State, w: World, box: Option<int>)
    requires CanSeal(s, w, box)
    ensures Sealing(s, w) && Look(s, w).0.file == Latch
    ensures forall events, later :: Sealing(Run(Look(s, w).0, events), later)
  {
    forall events, later ensures Sealing(Run(Look(s, w).0, events), later) {
      LatchedSurvivesRestarts(Look(s, w).0, events, later);
    }
  }

  /** A key is only ever given out with the latch on disk, so from then on the node never sends in clear. */
  lemma RecipientsMeanLatched(s: State, w: World, box: Option<int>, self: int, trusted: bool)
    requires Recipients(s, w, box, self, trusted) != map[]
    ensures trusted && Look(s, w).0.file == Latch
    ensures forall events, later :: Sealing(Run(Look(s, w).0, events), later)
  {
    forall events, later ensures Sealing(Run(Look(s, w).0, events), later) {
      LatchedSurvivesRestarts(Look(s, w).0, events, later);
    }
  }

  // ---- What each call says ----

  /** A latch is on disk and can be read. */
  predicate OnDisk(s: State, w: World) {
    s.file == Latch && w.readable
  }

  /** Something asks for a latch, and there is none to be read. */
  predicate MustWrite(s: State, w: World) {
    !OnDisk(s, w) && (w.devices != map[] || s.unwritten)
  }

  /** A look writes the latch exactly when it must and can, and owes it exactly when it must and cannot. */
  lemma LookSays(s: State, w: World)
    ensures var (next, seen) := Look(s, w);
            && seen.devices == w.devices
            && next.file == (if MustWrite(s, w) && w.writable then Latch else s.file)
            && (seen.durable <==> OnDisk(s, w) || (MustWrite(s, w) && w.writable))
            && (next.unwritten <==> MustWrite(s, w) && !w.writable)
            && next.logged == (if MustWrite(s, w) then !w.writable else s.logged)
            && (seen.latched <==> s.file != NoFile || !w.readable || MustWrite(s, w))
  {
  }

  /** A node seals with a device there, anything at the path of the latch, a path that it cannot read, or one owed. */
  lemma SealsExactlyWhen(s: State, w: World)
    ensures Sealing(s, w) <==> w.devices != map[] || s.file != NoFile || !w.readable || s.unwritten
  {
  }

  /** It can seal if and only if it has a box of its own, a device is there, and the latch is on disk or gets there. */
  lemma CanSealExactlyWhen(s: State, w: World, box: Option<int>)
    ensures CanSeal(s, w, box) <==> box.Some? && w.devices != map[] && (OnDisk(s, w) || w.writable)
  {
  }

  /** The keys given out are the devices' and, under its own name, the node's; none before the latch is on disk. */
  lemma RecipientsSay(s: State, w: World, box: Option<int>, self: int, trusted: bool, id: int)
    ensures var keys := Recipients(s, w, box, self, trusted);
            var durable := OnDisk(s, w) || (MustWrite(s, w) && w.writable);
            && (id in keys <==> trusted && durable && (id in w.devices || (box.Some? && id == self)))
            && (id in keys ==> keys[id] == if box.Some? && id == self then box.value else w.devices[id])
  {
  }

  /** A restart forgets what the process owed and said, and leaves the disk. */
  lemma RestartSays(s: State)
    ensures Step(s, Restart).file == s.file && !Step(s, Restart).unwritten && !Step(s, Restart).logged
  {
  }

  /** Each look or restart of a run meets what those before it left. */
  lemma {:induction false} RunGoesOn(s: State, events: seq<Event>, event: Event)
    ensures Run(s, events + [event]) == Step(Run(s, events), event)
    decreases |events|
  {
    if events == [] {
      assert [event][1..] == [] && events + [event] == [event];
    } else {
      assert (events + [event])[1..] == events[1..] + [event];
      RunGoesOn(Step(s, events[0]), events[1..], event);
    }
  }

  /** The closure of createSealPolicy over the latch file. */
  class Policy {
    const self: int
    const box: Option<int>
    var file: File
    var unwritten: bool
    var writeFailureLogged: bool

    ghost function Model(): State
      reads this
    {
      State(file, unwritten, writeFailureLogged)
    }

    constructor (self: int, box: Option<int>, file: File)
      ensures Model() == State(file, false, false) && this.self == self && this.box == box
    {
      this.self, this.box, this.file := self, box, file;
      unwritten, writeFailureLogged := false, false;
    }

    method LookNow(w: World) returns (seen: Seen)
      modifies this
      ensures (Model(), seen) == Look(old(Model()), w)
    {
      var read := ReadLatch(file, w.readable);
      var durable := read.Good?;
      if durable {
        unwritten := false;
      } else if w.devices != map[] || unwritten {
        if w.writable {
          file, durable, unwritten, writeFailureLogged := Latch, true, false, false;
        } else {
          unwritten, writeFailureLogged := true, true;
        }
      }
      seen := Seen(w.devices, durable, durable || read.Bad? || unwritten);
    }

    method IsSealing(w: World) returns (sealing: bool)
      modifies this
      ensures sealing <==> Sealing(old(Model()), w)
      ensures Model() == Look(old(Model()), w).0
    {
      var seen := LookNow(w);
      sealing := seen.latched || seen.devices != map[];
    }

    method MaySeal(w: World) returns (can: bool)
      modifies this
      ensures can <==> CanSeal(old(Model()), w, box)
      ensures Model() == Look(old(Model()), w).0
    {
      var seen := LookNow(w);
      can := box.Some? && seen.durable && seen.devices != map[];
    }

    method RecipientKeys(w: World, trusted: bool) returns (keys: map<int, int>)
      modifies this
      ensures keys == Recipients(old(Model()), w, box, self, trusted)
      ensures Model() == Look(old(Model()), w).0
    {
      var seen := LookNow(w);
      if !trusted || !seen.durable {
        return map[];
      }
      keys := seen.devices;
      if box.Some? {
        keys := keys[self := box.value];
      }
    }
  }
}
