/** Whiteboard rooms: the promise-based lock per room id, the loading of rooms under it, and
    the periodic saver.  A step is one stretch of code between two `await`s, or one event of
    the socket library; any number of callers take steps in any order. */
module TldrawRooms {
  import opened Types

  /** A `TLSocketRoom`: open or closed, and how many changes it has seen. */
  datatype Room = Room(roomId: string, closed: bool, changes: nat)

  /** A `RoomState` of `roomsMap`; `room` is an index into all rooms ever made. */
  datatype Entry = Entry(room: nat, needsPersist: bool)

  /** Where a call of `makeOrLoadRoom` stands.  Each call makes at most one lock promise, so
      a promise is named by the caller that made it. */
  datatype Phase =
    | Waiting(lock: nat)             // await this.roomLocks.get(roomId)
    | Loading                        // inside the critical section, await findOne
    | Leaving(result: Option<nat>)   // the critical section has settled
    | Returned(room: nat)
    | Threw

  datatype Caller = Caller(roomId: string, phase: Phase) {
    predicate Holds() { phase.Loading? || phase.Leaving? }
  }

  /** `saved` is, per room, the number of changes in the last snapshot handed to
      `saveToMongo`; `lost` is a history variable. */
  datatype Service = Service(
    roomsMap: map<string, Entry>,
    roomLocks: map<string, nat>,
    rooms: seq<Room>,
    callers: seq<Caller>,
    saved: seq<nat>,
    lost: set<nat>)
  {
    /** `existing && !existing.room.isClosed()` */
    predicate HasOpen(id: string) {
      id in roomsMap && roomsMap[id].room < |rooms| && !rooms[roomsMap[id].room].closed
    }

    /** The room is the entry of its id and waits to be saved. */
    predicate Dirty(r: nat)
      requires r < |rooms|
    {
      var id := rooms[r].roomId;
      id in roomsMap && roomsMap[id] == Entry(r, true)
    }
  }

  datatype Step =
    | Call(roomId: string)
    | Resume(c: nat)
    | LoadOk(c: nat)
    | LoadFail(c: nat)
    | Release(c: nat)
    | Change(r: nat)
    | Close(r: nat)
    | Tick

  /** A promise a caller waits for is settled once its lock is no longer the one in force. */
  predicate Enabled(s: Service, st: Step) {
    match st
    case Call(_) => true
    case Resume(c) =>
      c < |s.callers| && s.callers[c].phase.Waiting? &&
      (s.callers[c].roomId in s.roomLocks ==> s.roomLocks[s.callers[c].roomId] != s.callers[c].phase.lock)
    case LoadOk(c) => c < |s.callers| && s.callers[c].phase.Loading?
    case LoadFail(c) => c < |s.callers| && s.callers[c].phase.Loading?
    case Release(c) => c < |s.callers| && s.callers[c].phase.Leaving?
    case Change(r) => r < |s.rooms| && !s.rooms[r].closed
    case Close(r) => r < |s.rooms|
    case Tick => true
  }

  /** `withGlobalRoomLock` from the test of the loop on: wait again, or take the lock and
      enter the critical section, which looks at the map once more. */
  function TryLock(s: Service, c: nat): Service
    requires c < |s.callers|
  {
    var id := s.callers[c].roomId;
    if id in s.roomLocks then s.(callers := s.callers[c := Caller(id, Waiting(s.roomLocks[id]))])
    else
      var phase := if s.HasOpen(id) then Leaving(Some(s.roomsMap[id].room)) else Loading;
      s.(roomLocks := s.roomLocks[id := c], callers := s.callers[c := Caller(id, phase)])
  }

  function CallRoom(s: Service, id: string): Service {
    if s.HasOpen(id) then s.(callers := s.callers + [Caller(id, Returned(s.roomsMap[id].room))])
    else TryLock(s.(callers := s.callers + [Caller(id, Threw)]), |s.callers|)
  }

  /** The room is created and replaces whatever entry its id had. */
  function Install(s: Service, c: nat): Service
    requires c < |s.callers| && s.callers[c].phase.Loading?
  {
    var id := s.callers[c].roomId;
    s.(rooms := s.rooms + [Room(id, false, 0)],
       saved := s.saved + [0],
       roomsMap := s.roomsMap[id := Entry(|s.rooms|, false)],
       lost := s.lost + (if id in s.roomsMap && s.roomsMap[id].needsPersist then {s.roomsMap[id].room} else {}),
       callers := s.callers[c := Caller(id, Leaving(Some(|s.rooms|)))])
  }

  function Exit(s: Service, c: nat): Service
    requires c < |s.callers| && s.callers[c].phase.Leaving?
  {
    var id := s.callers[c].roomId;
    var phase := match s.callers[c].phase.result case Some(r) => Returned(r) case None => Threw;
    s.(roomLocks := s.roomLocks - {id}, callers := s.callers[c := Caller(id, phase)])
  }

  /** `onDataChange` marks the entry the map has for the room's id at that time. */
  function ChangeRoom(s: Service, r: nat): Service
    requires r < |s.rooms|
  {
    var room := s.rooms[r];
    s.(rooms := s.rooms[r := room.(changes := room.changes + 1)],
       roomsMap := if room.roomId in s.roomsMap
                   then s.roomsMap[room.roomId := s.roomsMap[room.roomId].(needsPersist := true)]
                   else s.roomsMap)
  }

  /** `handleRoomPersistence` */
  function Persist(s: Service): Service
    requires |s.saved| == |s.rooms|
  {
    s.(saved := seq(|s.rooms|, r requires 0 <= r < |s.rooms| => if s.Dirty(r) then s.rooms[r].changes else s.saved[r]),
       roomsMap := map id | id in s.roomsMap && s.HasOpen(id) :: s.roomsMap[id].(needsPersist := false))
  }

  /** The saver when it has dealt with the entries of some ids only. */
  function PersistOnly(s: Service, ids: set<string>): Service
    requires |s.saved| == |s.rooms|
  {
    s.(saved := seq(|s.rooms|, r requires 0 <= r < |s.rooms| =>
         if s.Dirty(r) && s.rooms[r].roomId in ids then s.rooms[r].changes else s.saved[r]),
       roomsMap := map id | id in s.roomsMap && (id in ids ==> s.HasOpen(id)) ::
         if id in ids then s.roomsMap[id].(needsPersist := false) else s.roomsMap[id])
  }

  lemma PersistNone(s: Service)
    requires |s.saved| == |s.rooms|
    ensures PersistOnly(s, {}) == s
  {
    assert PersistOnly(s, {}).saved == s.saved;
    assert PersistOnly(s, {}).roomsMap == s.roomsMap;
  }

  lemma PersistEverything(s: Service)
    requires |s.saved| == |s.rooms|
    ensures PersistOnly(s, s.roomsMap.Keys) == Persist(s)
  {
    assert PersistOnly(s, s.roomsMap.Keys).saved == Persist(s).saved;
    assert PersistOnly(s, s.roomsMap.Keys).roomsMap == Persist(s).roomsMap;
  }

  lemma PersistMore(s: Service, done: set<string>, id: string)
    requires EntriesOk(s) && |s.saved| == |s.rooms| && id !in done && id in s.roomsMap
    ensures var part := PersistOnly(s, done);
      && EntriesOk(part) && |part.saved| == |part.rooms| && id in part.roomsMap
      && PersistOnly(part, {id}) == PersistOnly(s, done + {id})
  {
    var part := PersistOnly(s, done);
    forall r | 0 <= r < |s.rooms| && s.rooms[r].roomId == id ensures part.Dirty(r) == s.Dirty(r) {
      assert part.roomsMap[id] == s.roomsMap[id];
    }
    assert PersistOnly(part, {id}).saved == PersistOnly(s, done + {id}).saved;
    assert PersistOnly(part, {id}).roomsMap == PersistOnly(s, done + {id}).roomsMap;
  }

  function Next(s: Service, st: Step): Service
    requires Enabled(s, st) && |s.saved| == |s.rooms|
  {
    match st
    case Call(id) => CallRoom(s, id)
    case Resume(c) => TryLock(s, c)
    case LoadOk(c) => Install(s, c)
    case LoadFail(c) =>
      s.(callers := s.callers[c := Caller(s.callers[c].roomId, Leaving(None))])
    case Release(c) => Exit(s, c)
    case Change(r) => ChangeRoom(s, r)
    case Close(r) => s.(rooms := s.rooms[r := s.rooms[r].(closed := true)])
    case Tick => Persist(s)
  }

  function Initial(): Service {
    Service(map[], map[], [], [], [], {})
  }

  /** ---- invariants ---- */

  /** The lock of an id is in force exactly while the caller that made it is in the critical
      section of that id. */
  ghost predicate LockInv(s: Service) {
    && (forall id :: id in s.roomLocks ==>
         s.roomLocks[id] < |s.callers| && s.callers[s.roomLocks[id]].Holds() && s.callers[s.roomLocks[id]].roomId == id)
    && (forall c :: 0 <= c < |s.callers| && s.callers[c].Holds() ==>
         s.callers[c].roomId in s.roomLocks && s.roomLocks[s.callers[c].roomId] == c)
  }

  /** Every open room is the map's entry, and nobody is loading an id that has one. */
  ghost predicate RoomInv(s: Service) {
    && EntriesOk(s)
    && (forall r :: 0 <= r < |s.rooms| && !s.rooms[r].closed ==>
         s.rooms[r].roomId in s.roomsMap && s.roomsMap[s.rooms[r].roomId].room == r)
    && (forall c :: 0 <= c < |s.callers| && s.callers[c].phase.Loading? ==> !s.HasOpen(s.callers[c].roomId))
    && (forall c :: 0 <= c < |s.callers| ==> ResultOk(s, s.callers[c]))
  }

  ghost predicate EntriesOk(s: Service) {
    forall id :: id in s.roomsMap ==> s.roomsMap[id].room < |s.rooms| && s.rooms[s.roomsMap[id].room].roomId == id
  }

  ghost predicate ResultOk(s: Service, c: Caller) {
    match c.phase
    case Returned(r) => r < |s.rooms| && s.rooms[r].roomId == c.roomId
    case Leaving(Some(r)) => r < |s.rooms| && s.rooms[r].roomId == c.roomId
    case _ => true
  }

  /** A room has unsaved changes exactly if it is a dirty entry or has been lost. */
  ghost predicate SaveInv(s: Service) {
    && |s.saved| == |s.rooms|
    && (forall r :: 0 <= r < |s.rooms| ==> s.saved[r] <= s.rooms[r].changes)
    && (forall r :: 0 <= r < |s.rooms| ==> (s.saved[r] < s.rooms[r].changes <==> s.Dirty(r) || r in s.lost))
    && (forall r :: r in s.lost ==> IsLost(s, r))
  }

  ghost predicate IsLost(s: Service, r: nat) {
    && r < |s.rooms| == |s.saved| && s.rooms[r].closed && s.saved[r] < s.rooms[r].changes
    && (s.rooms[r].roomId in s.roomsMap ==> s.roomsMap[s.rooms[r].roomId].room != r)
  }

  ghost predicate Inv(s: Service) {
    LockInv(s) && RoomInv(s) && SaveInv(s)
  }

  lemma TryLockKeepsLocks(s: Service, c: nat)
    requires LockInv(s) && c < |s.callers| && !s.callers[c].Holds()
    ensures LockInv(TryLock(s, c))
  {
  }

  lemma CallKeepsLocks(s: Service, id: string)
    requires LockInv(s)
    ensures LockInv(CallRoom(s, id))
  {
    if !s.HasOpen(id) {
      TryLockKeepsLocks(s.(callers := s.callers + [Caller(id, Threw)]), |s.callers|);
    }
  }

  lemma ExitKeepsLocks(s: Service, c: nat)
    requires LockInv(s) && c < |s.callers| && s.callers[c].phase.Leaving?
    ensures LockInv(Exit(s, c))
  {
  }

  lemma SettledSectionKeepsLocks(s: Service, t: Service, c: nat, result: Option<nat>)
    requires LockInv(s) && c < |s.callers| && s.callers[c].phase.Loading? && t.roomLocks == s.roomLocks
    requires t.callers == s.callers[c := Caller(s.callers[c].roomId, Leaving(result))]
    ensures LockInv(t)
  {
  }

  lemma LocksKept(s: Service, st: Step)
    requires LockInv(s) && Enabled(s, st) && |s.saved| == |s.rooms|
    ensures LockInv(Next(s, st))
  {
    match st
    case Call(id) => CallKeepsLocks(s, id);
    case Resume(c) => TryLockKeepsLocks(s, c);
    case LoadOk(c) => SettledSectionKeepsLocks(s, Next(s, st), c, Some(|s.rooms|));
    case LoadFail(c) => SettledSectionKeepsLocks(s, Next(s, st), c, None);
    case Release(c) => ExitKeepsLocks(s, c);
    case Change(_) =>
    case Close(_) =>
    case Tick =>
  }

  lemma TryLockKeepsRooms(s: Service, c: nat)
    requires RoomInv(s) && c < |s.callers|
    ensures RoomInv(TryLock(s, c))
  {
  }

  lemma CallKeepsRooms(s: Service, id: string)
    requires RoomInv(s)
    ensures RoomInv(CallRoom(s, id))
  {
    if !s.HasOpen(id) {
      TryLockKeepsRooms(s.(callers := s.callers + [Caller(id, Threw)]), |s.callers|);
    }
  }

  lemma ChangeKeepsRooms(s: Service, r: nat)
    requires RoomInv(s) && r < |s.rooms|
    ensures RoomInv(ChangeRoom(s, r))
  {
  }

  lemma PersistKeepsRooms(s: Service)
    requires RoomInv(s) && |s.saved| == |s.rooms|
    ensures RoomInv(Persist(s))
  {
  }

  lemma InstallKeepsRooms(s: Service, c: nat)
    requires LockInv(s) && RoomInv(s) && c < |s.callers| && s.callers[c].phase.Loading?
    ensures RoomInv(Install(s, c))
  {
    var t := Install(s, c);
    forall d | 0 <= d < |t.callers| && t.callers[d].phase.Loading? ensures !t.HasOpen(t.callers[d].roomId) {
      assert d != c && t.callers[d] == s.callers[d] && s.callers[d].Holds() && s.callers[c].Holds();
    }
    forall d | 0 <= d < |t.callers| ensures ResultOk(t, t.callers[d]) {
      assert d != c ==> t.callers[d] == s.callers[d] && ResultOk(s, s.callers[d]);
    }
  }

  lemma RoomsKept(s: Service, st: Step)
    requires LockInv(s) && RoomInv(s) && Enabled(s, st) && |s.saved| == |s.rooms|
    ensures RoomInv(Next(s, st))
  {
    match st
    case Call(id) => CallKeepsRooms(s, id);
    case Resume(c) => TryLockKeepsRooms(s, c);
    case LoadOk(c) => InstallKeepsRooms(s, c);
    case LoadFail(_) =>
    case Release(_) =>
    case Change(r) => ChangeKeepsRooms(s, r);
    case Close(_) =>
    case Tick => PersistKeepsRooms(s);
  }

  lemma SameRoomsKeepSaves(s: Service, t: Service)
    requires SaveInv(s) && t.roomsMap == s.roomsMap && t.saved == s.saved && t.lost == s.lost
    requires |t.rooms| == |s.rooms|
    requires forall r :: 0 <= r < |s.rooms| ==> t.rooms[r] == s.rooms[r].(closed := t.rooms[r].closed)
    requires forall r :: 0 <= r < |s.rooms| && s.rooms[r].closed ==> t.rooms[r].closed
    ensures SaveInv(t)
  {
    forall r | r in t.lost ensures IsLost(t, r) {
      assert IsLost(s, r);
    }
    forall r | 0 <= r < |s.rooms| ensures t.Dirty(r) == s.Dirty(r) && t.rooms[r].changes == s.rooms[r].changes {
      assert t.rooms[r] == s.rooms[r].(closed := t.rooms[r].closed);
    }
  }

  lemma SavesKept(s: Service, st: Step)
    requires RoomInv(s) && SaveInv(s) && Enabled(s, st)
    ensures SaveInv(Next(s, st))
  {
    match st
    case LoadOk(c) => InstallKeepsSaves(s, c);
    case Change(r) => ChangeKeepsSaves(s, r);
    case Tick => PersistKeepsSaves(s);
    case _ => SameRoomsKeepSaves(s, Next(s, st));
  }

  lemma InstallKeepsSaves(s: Service, c: nat)
    requires RoomInv(s) && SaveInv(s) && c < |s.callers| && s.callers[c].phase.Loading?
    ensures SaveInv(Install(s, c))
  {
    var t, id := Install(s, c), s.callers[c].roomId;
    assert !s.HasOpen(id);
    forall r | 0 <= r < |s.rooms| ensures t.Dirty(r) || r in t.lost <==> s.Dirty(r) || r in s.lost {
      assert t.rooms[r] == s.rooms[r];
    }
    forall r | r in t.lost ensures IsLost(t, r) {
      if r in s.lost {
        assert IsLost(s, r);
      } else {
        assert s.Dirty(r);
      }
    }
  }

  lemma ChangeKeepsSaves(s: Service, r: nat)
    requires RoomInv(s) && SaveInv(s) && r < |s.rooms| && !s.rooms[r].closed
    ensures SaveInv(ChangeRoom(s, r))
  {
    var t := ChangeRoom(s, r);
    forall q | 0 <= q < |s.rooms| && q != r ensures t.Dirty(q) <==> s.Dirty(q) {
      assert t.rooms[q] == s.rooms[q];
    }
    forall q | q in t.lost ensures IsLost(t, q) {
      assert IsLost(s, q);
    }
  }

  lemma PersistKeepsSaves(s: Service)
    requires RoomInv(s) && SaveInv(s)
    ensures SaveInv(Persist(s))
  {
    var t := Persist(s);
    forall q | q in t.lost ensures IsLost(t, q) {
      assert IsLost(s, q) && !s.Dirty(q);
    }
    forall q | 0 <= q < |t.rooms| ensures t.saved[q] < t.rooms[q].changes <==> t.Dirty(q) || q in t.lost {
      assert !t.Dirty(q);
      if q in s.lost {
        assert IsLost(s, q) && !s.Dirty(q);
      }
    }
  }

  ghost predicate Runs(s: Service, steps: seq<Step>, f: Service)
    requires |s.saved| == |s.rooms|
    decreases |steps|
  {
    if steps == [] then f == s
    else
      Enabled(s, steps[0]) && |Next(s, steps[0]).saved| == |Next(s, steps[0]).rooms| &&
      Runs(Next(s, steps[0]), steps[1..], f)
  }

  lemma StepInv(s: Service, st: Step)
    requires Inv(s) && Enabled(s, st)
    ensures Inv(Next(s, st))
  {
    LocksKept(s, st);
    RoomsKept(s, st);
    SavesKept(s, st);
  }

  lemma {:induction false} RunInv(s: Service, steps: seq<Step>, f: Service)
    requires Inv(s) && Runs(s, steps, f)
    ensures Inv(f)
    decreases |steps|
  {
    if steps != [] {
      StepInv(s, steps[0]);
      RunInv(Next(s, steps[0]), steps[1..], f);
    }
  }

  /** In every interleaving: at most one caller per room id is in the critical section, and
      its lock is in force; without one the lock is free, so a call that has returned or
      thrown has given it back. */
  lemma MutualExclusion(steps: seq<Step>, f: Service, id: string, c: nat, d: nat)
    requires Runs(Initial(), steps, f)
    requires c < |f.callers| && d < |f.callers| && f.callers[c].roomId == f.callers[d].roomId == id
    ensures f.callers[c].Holds() && f.callers[d].Holds() ==> c == d
    ensures f.callers[c].Holds() ==> id in f.roomLocks
    ensures (forall e :: 0 <= e < |f.callers| && f.callers[e].roomId == id ==> !f.callers[e].Holds()) ==> id !in f.roomLocks
  {
    RunInv(Initial(), steps, f);
  }

  /** Nobody waits for nothing: a caller whose turn has not come waits for a caller that can
      move on, whether its load succeeds or fails. */
  lemma NoDeadlock(steps: seq<Step>, f: Service, c: nat)
    requires Runs(Initial(), steps, f) && c < |f.callers| && f.callers[c].phase.Waiting?
    ensures Enabled(f, Resume(c)) ||
      exists d :: 0 <= d < |f.callers| && f.callers[d].roomId == f.callers[c].roomId &&
        ((Enabled(f, LoadOk(d)) && Enabled(f, LoadFail(d))) || Enabled(f, Release(d)))
  {
    RunInv(Initial(), steps, f);
    if !Enabled(f, Resume(c)) {
      var d := f.roomLocks[f.callers[c].roomId];
      assert (Enabled(f, LoadOk(d)) && Enabled(f, LoadFail(d))) || Enabled(f, Release(d));
    }
  }

  /** No room id ever has two open rooms, and every open room is the map's entry. */
  lemma OneOpenRoomPerId(steps: seq<Step>, f: Service, r: nat, q: nat)
    requires Runs(Initial(), steps, f) && r < |f.rooms| && q < |f.rooms|
    requires !f.rooms[r].closed && !f.rooms[q].closed && f.rooms[r].roomId == f.rooms[q].roomId
    ensures r == q && f.HasOpen(f.rooms[r].roomId) && f.roomsMap[f.rooms[r].roomId].room == r
  {
    RunInv(Initial(), steps, f);
  }

  /** A call for a room that is open gets it at once, also while another caller holds the lock. */
  lemma OpenRoomIsReturnedAtOnce(steps: seq<Step>, f: Service, r: nat)
    requires Runs(Initial(), steps, f) && r < |f.rooms| && !f.rooms[r].closed
    ensures Enabled(f, Call(f.rooms[r].roomId)) && |f.saved| == |f.rooms|
    ensures Next(f, Call(f.rooms[r].roomId)) == f.(callers := f.callers + [Caller(f.rooms[r].roomId, Returned(r))])
  {
    RunInv(Initial(), steps, f);
  }

  /** A caller is handed a room of the id it asked for. */
  lemma CallersGetTheirRoom(steps: seq<Step>, f: Service, c: nat)
    requires Runs(Initial(), steps, f) && c < |f.callers| && f.callers[c].phase.Returned?
    ensures f.callers[c].phase.room < |f.rooms| && f.rooms[f.callers[c].phase.room].roomId == f.callers[c].roomId
  {
    RunInv(Initial(), steps, f);
    assert ResultOk(f, f.callers[c]);
  }

  /** ---- persistence ---- */

  /** The step at which the changes of room `r` go missing: its id is opened again after
      `r` was closed with unsaved changes and before the saver ran. */
  ghost predicate ReopenedTooEarly(s: Service, st: Step, r: nat) {
    st.LoadOk? && Enabled(s, st) && s.callers[st.c].roomId in s.roomsMap &&
    s.roomsMap[s.callers[st.c].roomId] == Entry(r, true)
  }

  ghost predicate EverReopenedTooEarly(s: Service, steps: seq<Step>, f: Service, r: nat)
    requires |s.saved| == |s.rooms| && Runs(s, steps, f)
    decreases |steps|
  {
    steps != [] &&
    (ReopenedTooEarly(s, steps[0], r) || EverReopenedTooEarly(Next(s, steps[0]), steps[1..], f, r))
  }

  lemma {:induction false} LostIffReopened(s: Service, steps: seq<Step>, f: Service, r: nat)
    requires Inv(s) && Runs(s, steps, f)
    ensures r in f.lost <==> r in s.lost || EverReopenedTooEarly(s, steps, f, r)
    decreases |steps|
  {
    if steps != [] {
      StepInv(s, steps[0]);
      LostIffReopened(Next(s, steps[0]), steps[1..], f, r);
    }
  }

  /** After a tick, all changes of a room are in a snapshot handed to `saveToMongo` exactly
      if its id was never opened again between its closing and the tick that would have
      saved it. */
  lemma TickSavesAllIffNeverReopenedTooEarly(steps: seq<Step>, f: Service, r: nat)
    requires Runs(Initial(), steps, f) && r < |f.rooms| == |f.saved|
    ensures Enabled(f, Tick)
    ensures Next(f, Tick).saved[r] == f.rooms[r].changes <==> !EverReopenedTooEarly(Initial(), steps, f, r)
  {
    RunInv(Initial(), steps, f);
    LostIffReopened(Initial(), steps, f, r);
    PersistKeepsSaves(f);
    assert !Persist(f).Dirty(r);
  }

  ghost predicate OneStep(s: Service, st: Step, t: Service) {
    |s.saved| == |s.rooms| && Enabled(s, st) && Next(s, st) == t
  }

  lemma {:induction false} Chain(states: seq<Service>, steps: seq<Step>)
    requires |states| == |steps| + 1 && forall i :: 0 <= i < |steps| ==> OneStep(states[i], steps[i], states[i + 1])
    requires |states[0].saved| == |states[0].rooms|
    ensures Runs(states[0], steps, states[|steps|])
    decreases |steps|
  {
    if steps != [] {
      assert OneStep(states[0], steps[0], states[1]);
      forall i | 0 <= i < |steps[1..]| ensures OneStep(states[1..][i], steps[1..][i], states[1..][i + 1]) {
        assert OneStep(states[i + 1], steps[i + 1], states[i + 2]);
      }
      Chain(states[1..], steps[1..]);
    }
  }

  /** The states of a run from the start: a room is opened, changed and closed, and opened again
      before the tick. */
  function LosingStates(id: string): seq<Service> {
    [ Initial(),
      Service(map[], map[id := 0], [], [Caller(id, Loading)], [], {}),
      Service(map[id := Entry(0, false)], map[id := 0], [Room(id, false, 0)], [Caller(id, Leaving(Some(0)))], [0], {}),
      Service(map[id := Entry(0, false)], map[], [Room(id, false, 0)], [Caller(id, Returned(0))], [0], {}),
      Service(map[id := Entry(0, true)], map[], [Room(id, false, 1)], [Caller(id, Returned(0))], [0], {}),
      Service(map[id := Entry(0, true)], map[], [Room(id, true, 1)], [Caller(id, Returned(0))], [0], {}),
      Service(map[id := Entry(0, true)], map[id := 1], [Room(id, true, 1)], [Caller(id, Returned(0)), Caller(id, Loading)], [0], {}),
      Service(map[id := Entry(1, false)], map[id := 1], [Room(id, true, 1), Room(id, false, 0)],
              [Caller(id, Returned(0)), Caller(id, Leaving(Some(1)))], [0, 0], {0}) ]
  }

  function LosingSteps(id: string): seq<Step> {
    [Call(id), LoadOk(0), Release(0), Change(0), Close(0), Call(id), LoadOk(1)]
  }

  lemma LosingStep(id: string, i: nat)
    requires i < 7
    ensures OneStep(LosingStates(id)[i], LosingSteps(id)[i], LosingStates(id)[i + 1])
  {
    hide Persist;
    var s, st, t := LosingStates(id)[i], LosingSteps(id)[i], LosingStates(id)[i + 1];
    assert Next(s, st).roomsMap == t.roomsMap && Next(s, st).roomLocks == t.roomLocks;
    assert Next(s, st).callers == t.callers && Next(s, st).rooms == t.rooms && Next(s, st).saved == t.saved;
  }

  /** So it does happen: the tick then saves nothing of the change. */
  lemma ReopeningLosesAChange(id: string) returns (f: Service)
    ensures Runs(Initial(), LosingSteps(id), f)
    ensures |f.rooms| == |f.saved| == 2 && f.rooms[0].changes == 1 && Persist(f).saved[0] == 0
  {
    hide Next, Enabled;
    f := LosingStates(id)[7];
    forall i | 0 <= i < 7 ensures OneStep(LosingStates(id)[i], LosingSteps(id)[i], LosingStates(id)[i + 1]) {
      LosingStep(id, i);
    }
    Chain(LosingStates(id), LosingSteps(id));
    assert !f.Dirty(0);
  }

  /** What is lost stays lost: no later step saves it or changes the room. */
  lemma {:induction false} LostForGood(s: Service, steps: seq<Step>, f: Service, r: nat)
    requires Inv(s) && Runs(s, steps, f) && r in s.lost
    ensures r in f.lost && r < |f.rooms| == |f.saved| && r < |s.rooms|
    ensures f.rooms[r] == s.rooms[r] && f.saved[r] == s.saved[r] < s.rooms[r].changes
    decreases |steps|
  {
    assert IsLost(s, r);
    if steps != [] {
      StepInv(s, steps[0]);
      LostForGood(Next(s, steps[0]), steps[1..], f, r);
    }
  }

  /** The saver drops closed rooms only. */
  lemma TickKeepsOpenRooms(steps: seq<Step>, f: Service, id: string)
    requires Runs(Initial(), steps, f) && |f.saved| == |f.rooms|
    ensures f.HasOpen(id) ==> id in Persist(f).roomsMap && Persist(f).roomsMap[id].room == f.roomsMap[id].room
    ensures id in Persist(f).roomsMap ==> f.HasOpen(id) && !Persist(f).roomsMap[id].needsPersist
  {
  }

  /** The service; each method is one stretch of its code. */
  class TldrawSync {
    var roomsMap: map<string, Entry>
    var roomLocks: map<string, nat>
    var rooms: seq<Room>
    var callers: seq<Caller>
    var saved: seq<nat>
    ghost var lost: set<nat>

    ghost function St(): Service
      reads this
    {
      Service(roomsMap, roomLocks, rooms, callers, saved, lost)
    }

    constructor ()
      ensures St() == Initial() && Inv(St())
    {
      roomsMap, roomLocks, rooms, callers, saved, lost := map[], map[], [], [], [], {};
    }

    method HasOpenRoom(roomId: string) returns (open: bool)
      ensures open == St().HasOpen(roomId)
    {
      open := roomId in roomsMap && roomsMap[roomId].room < |rooms| && !rooms[roomsMap[roomId].room].closed;
    }

    /** From the test of the `while` loop up to the next `await`. */
    method WithGlobalRoomLock(c: nat)
      requires c < |callers|
      modifies this
      ensures St() == TryLock(old(St()), c)
    {
      var id := callers[c].roomId;
      if id in roomLocks {
        callers := callers[c := Caller(id, Waiting(roomLocks[id]))];
        return;
      }
      roomLocks := roomLocks[id := c];
      var open := HasOpenRoom(id);
      var phase := if open then Leaving(Some(roomsMap[id].room)) else Loading;
      callers := callers[c := Caller(id, phase)];
    }

    method MakeOrLoadRoom(roomId: string)
      modifies this
      ensures St() == CallRoom(old(St()), roomId)
    {
      var open := HasOpenRoom(roomId);
      if open {
        callers := callers + [Caller(roomId, Returned(roomsMap[roomId].room))];
      } else {
        callers := callers + [Caller(roomId, Threw)];
        WithGlobalRoomLock(|callers| - 1);
      }
    }

    method RoomLoaded(c: nat)
      requires c < |callers| && callers[c].phase.Loading?
      modifies this
      ensures St() == Install(old(St()), c)
    {
      var id := callers[c].roomId;
      if id in roomsMap && roomsMap[id].needsPersist {
        lost := lost + {roomsMap[id].room};
      }
      rooms, saved := rooms + [Room(id, false, 0)], saved + [0];
      roomsMap := roomsMap[id := Entry(|rooms| - 1, false)];
      callers := callers[c := Caller(id, Leaving(Some(|rooms| - 1)))];
    }

    method LoadFailed(c: nat)
      requires c < |callers| && callers[c].phase.Loading? && |saved| == |rooms|
      modifies this
      ensures St() == Next(old(St()), LoadFail(c))
    {
      callers := callers[c := Caller(callers[c].roomId, Leaving(None))];
    }

    /** `onSessionRemoved` when no session remains. */
    method CloseRoom(r: nat)
      requires r < |rooms| && |saved| == |rooms|
      modifies this
      ensures St() == Next(old(St()), Close(r))
    {
      rooms := rooms[r := rooms[r].(closed := true)];
    }

    /** The `finally` of the lock. */
    method LeaveLock(c: nat)
      requires c < |callers| && callers[c].phase.Leaving?
      modifies this
      ensures St() == Exit(old(St()), c)
    {
      var Caller(id, phase) := callers[c];
      roomLocks := roomLocks - {id};
      callers := callers[c := Caller(id, if phase.result.Some? then Returned(phase.result.value) else Threw)];
    }

    method OnDataChange(r: nat)
      requires r < |rooms|
      modifies this
      ensures St() == ChangeRoom(old(St()), r)
    {
      var id := rooms[r].roomId;
      rooms := rooms[r := rooms[r].(changes := rooms[r].changes + 1)];
      if id in roomsMap {
        roomsMap := roomsMap[id := roomsMap[id].(needsPersist := true)];
      }
    }

    /** The body of the `forEach` for one entry. */
    method PersistEntry(roomId: string)
      requires EntriesOk(St()) && |saved| == |rooms| && roomId in roomsMap
      modifies this
      ensures St() == PersistOnly(old(St()), {roomId})
    {
      var Entry(room, needsPersist) := roomsMap[roomId];
      if needsPersist {
        roomsMap := roomsMap[roomId := Entry(room, false)];
        saved := saved[room := rooms[room].changes];
      }
      if rooms[room].closed {
        roomsMap := roomsMap - {roomId};
      }
      assert saved == PersistOnly(old(St()), {roomId}).saved;
      assert roomsMap == PersistOnly(old(St()), {roomId}).roomsMap;
    }

    /** The `forEach` over the entries, in any order. */
    method HandleRoomPersistence()
      requires EntriesOk(St()) && |saved| == |rooms|
      modifies this
      ensures St() == Persist(old(St()))
    {
      ghost var s, done := St(), {};
      var todo := roomsMap.Keys;
      PersistNone(s);
      while todo != {}
        invariant |s.saved| == |s.rooms| && EntriesOk(s)
        invariant todo + done == s.roomsMap.Keys && todo !! done
        invariant St() == PersistOnly(s, done)
        decreases todo
      {
        var roomId :| roomId in todo;
        PersistMore(s, done, roomId);
        PersistEntry(roomId);
        todo, done := todo - {roomId}, done + {roomId};
      }
      PersistEverything(s);
    }
  }
}
