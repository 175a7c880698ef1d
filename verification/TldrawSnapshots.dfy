/** What the whiteboard rooms keep of one board: the stored snapshot, the snapshots on their way
    to it, and the room.  A load reads the stored snapshot at one moment and makes the room of
    it at a later one; a save is handed over at one moment and stored at a later one. */
module TldrawSnapshots {
  import opened Types

  type Change = nat

  datatype Room = Room(contents: set<Change>, closed: bool, needsPersist: bool)

  /** `saves` are the snapshots handed to `saveToMongo` and not yet stored, oldest first;
      `loading` is a load under the lock, with what `findOne` has returned; `handedOver` is a
      history variable: every change in some snapshot handed over. */
  datatype Board = Board(
    stored: set<Change>,
    saves: seq<set<Change>>,
    room: Option<Room>,
    loading: Option<Option<set<Change>>>,
    nextChange: Change,
    handedOver: set<Change>)

  datatype Step =
    | BeginLoad      // no open room: enter the critical section
    | Read           // the database answers findOne
    | Install        // createRoom and roomsMap.set
    | LoadFails
    | Edit           // a change in the open room
    | Close
    | Tick           // handleRoomPersistence
    | Store(i: nat)  // a save reaches the database

  predicate HasOpenRoom(s: Board) { s.room.Some? && !s.room.value.closed }

  predicate Enabled(s: Board, st: Step) {
    match st
    case BeginLoad => s.loading.None? && !HasOpenRoom(s)
    case Read => s.loading == Some(None)
    case Install => s.loading.Some? && s.loading.value.Some?
    case LoadFails => s.loading.Some?
    case Edit => HasOpenRoom(s)
    case Close => s.room.Some?
    case Tick => true
    case Store(i) => i < |s.saves|
  }

  /** The tick hands over a changed room, and then forgets it if it is closed. */
  function TickBoard(s: Board): Board {
    if s.room.None? then s
    else
      var r := s.room.value;
      var saved := if r.needsPersist then s.(saves := s.saves + [r.contents], handedOver := s.handedOver + r.contents) else s;
      saved.(room := if r.closed then None else Some(r.(needsPersist := false)))
  }

  function Next(s: Board, st: Step): Board
    requires Enabled(s, st)
  {
    match st
    case BeginLoad => s.(loading := Some(None))
    case Read => s.(loading := Some(Some(s.stored)))
    case Install => s.(room := Some(Room(s.loading.value.value, false, false)), loading := None)
    case LoadFails => s.(loading := None)
    case Edit =>
      s.(room := Some(s.room.value.(contents := s.room.value.contents + {s.nextChange}, needsPersist := true)), nextChange := s.nextChange + 1)
    case Close => s.(room := Some(s.room.value.(closed := true)))
    case Tick => TickBoard(s)
    case Store(i) => s.(stored := s.saves[i], saves := s.saves[..i] + s.saves[i + 1..])
  }

  ghost predicate Runs(s: Board, steps: seq<Step>, f: Board)
    decreases |steps|
  {
    if steps == [] then f == s else Enabled(s, steps[0]) && Runs(Next(s, steps[0]), steps[1..], f)
  }

  const EMPTY := Board({}, [], None, None, 0, {})

  /** What the database will hold when all saves on their way are stored in their order. */
  function Newest(s: Board): set<Change> {
    if s.saves == [] then s.stored else s.saves[|s.saves| - 1]
  }

  /** Saves reach the database in the order in which they were handed over. */
  ghost predicate InOrder(steps: seq<Step>) {
    forall i :: 0 <= i < |steps| && steps[i].Store? ==> steps[i].i == 0
  }

  /** The load misses a change that was handed over: a save was on its way when it read, or one
      was handed over since. */
  predicate Stale(s: Board, st: Step) {
    st == Install && s.loading.Some? && s.loading.value.Some? && !(s.handedOver <= s.loading.value.value)
  }

  ghost predicate NeverStale(s: Board, steps: seq<Step>)
    decreases |steps|
  {
    steps != [] ==>
      Enabled(s, steps[0]) && !Stale(s, steps[0]) && NeverStale(Next(s, steps[0]), steps[1..])
  }

  /** Nothing that was handed over is missing from the newest snapshot or from the room. */
  ghost predicate AllKept(s: Board) {
    && s.handedOver <= Newest(s) && (s.room.Some? ==> s.handedOver <= s.room.value.contents)
    && Made(s, s.handedOver) && Made(s, s.stored)
    && (forall i :: 0 <= i < |s.saves| ==> Made(s, s.saves[i]))
    && (s.room.Some? ==> Made(s, s.room.value.contents))
    && (s.loading.Some? && s.loading.value.Some? ==> Made(s, s.loading.value.value))
  }

  /** These changes have been made already. */
  ghost predicate Made(s: Board, changes: set<Change>) {
    forall c :: c in changes ==> c < s.nextChange
  }

  lemma StepKeepsAll(s: Board, st: Step)
    requires AllKept(s) && Enabled(s, st) && !Stale(s, st) && (st.Store? ==> st.i == 0)
    ensures AllKept(Next(s, st))
  {
  }

  /** As long as no stale load is installed and saves are stored in order, no change that was
      handed over is lost: it is in the open room, and in the database once all is stored. */
  lemma {:induction false} NothingIsLost(s: Board, steps: seq<Step>, f: Board)
    requires AllKept(s) && Runs(s, steps, f) && InOrder(steps) && NeverStale(s, steps)
    ensures AllKept(f) && (f.saves == [] ==> f.handedOver <= f.stored)
    decreases |steps|
  {
    if steps != [] {
      StepKeepsAll(s, steps[0]);
      assert InOrder(steps[1..]);
      NothingIsLost(Next(s, steps[0]), steps[1..], f);
    }
  }

  /** While a load waits to be installed, its result stays. */
  ghost predicate OnlyOneLoad(steps: seq<Step>) {
    forall i :: 0 <= i < |steps| ==> !steps[i].Install? && !steps[i].LoadFails?
  }

  lemma {:induction false} LoadStays(s: Board, steps: seq<Step>, f: Board)
    requires s.loading.Some? && s.loading.value.Some? && Runs(s, steps, f) && OnlyOneLoad(steps)
    ensures f.loading == s.loading
    decreases |steps|
  {
    if steps != [] {
      assert OnlyOneLoad(steps[1..]);
      LoadStays(Next(s, steps[0]), steps[1..], f);
    }
  }

  /** A load sees what was stored when the database answered, whatever happens until it is
      installed: the new room holds exactly that, open and with nothing to save.  A load that
      fails leaves everything as it is. */
  lemma LoadSeesWhatWasStored(s: Board, steps: seq<Step>, f: Board)
    requires Enabled(s, Read) && Runs(Next(s, Read), steps, f) && OnlyOneLoad(steps)
    ensures Enabled(f, LoadFails) && Next(f, LoadFails) == f.(loading := None)
    ensures Enabled(f, Install) && Next(f, Install).room == Some(Room(s.stored, false, false)) && Next(f, Install).stored == f.stored
  {
    LoadStays(Next(s, Read), steps, f);
  }

  /** So a load that is answered when no save is on its way, and installed before the next tick,
      is not stale. */
  lemma LoadAfterAllSavesIsFresh(s: Board, steps: seq<Step>, f: Board)
    requires AllKept(s) && s.saves == [] && Enabled(s, Read) && Runs(Next(s, Read), steps, f) && OnlyOneLoad(steps) && Tick !in steps
    ensures Enabled(f, Install) && !Stale(f, Install)
  {
    LoadStays(Next(s, Read), steps, f);
    HandedOverAtTicks(Next(s, Read), steps, f);
  }

  lemma {:induction false} HandedOverAtTicks(s: Board, steps: seq<Step>, f: Board)
    requires Runs(s, steps, f) && Tick !in steps
    ensures f.handedOver == s.handedOver
    decreases |steps|
  {
    if steps != [] {
      assert steps[0] in steps && Tick !in steps[1..];
      HandedOverAtTicks(Next(s, steps[0]), steps[1..], f);
    }
  }

  /** From here on, without another load, a change that was handed over can end up missing from
      the database, with every save stored and in order. */
  ghost predicate CanLose(s: Board) {
    exists steps, f :: LosingRun(s, steps, f)
  }

  ghost predicate LosingRun(s: Board, steps: seq<Step>, f: Board) {
    && Runs(s, steps, f) && InOrder(steps) && (forall st :: st in steps ==> st != Install)
    && f.saves == [] && !(f.handedOver <= f.stored)
  }

  lemma {:induction false} NoInstallNeverStale(s: Board, steps: seq<Step>, f: Board)
    requires Runs(s, steps, f) && forall st :: st in steps ==> st != Install
    ensures NeverStale(s, steps)
    decreases |steps|
  {
    if steps != [] {
      assert steps[0] in steps;
      assert forall st :: st in steps[1..] ==> st in steps;
      NoInstallNeverStale(Next(s, steps[0]), steps[1..], f);
    }
  }

  /** Every save on its way can be stored, in order. */
  lemma {:induction false} StoreAll(s: Board) returns (steps: seq<Step>, f: Board)
    ensures Runs(s, steps, f) && InOrder(steps) && forall st :: st in steps ==> st != Install
    ensures f == s.(stored := Newest(s), saves := [])
    decreases |s.saves|
  {
    if s.saves == [] {
      steps, f := [], s;
    } else {
      var t := Next(s, Store(0));
      assert t.saves == s.saves[1..] && Newest(t) == Newest(s);
      var rest;
      rest, f := StoreAll(t);
      steps := [Store(0)] + rest;
      assert steps[1..] == rest;
    }
  }

  /** Installing a load can lose a change if and only if the load is stale: the board is edited
      once, handed over and stored, and the change that the load missed is gone. */
  lemma InstallCanLoseIffStale(s: Board)
    requires AllKept(s) && Enabled(s, Install)
    ensures CanLose(Next(s, Install)) <==> Stale(s, Install)
  {
    var t := Next(s, Install);
    if Stale(s, Install) {
      StaleLoses(s);
    } else {
      StepKeepsAll(s, Install);
      forall steps, f ensures !LosingRun(t, steps, f) {
        if Runs(t, steps, f) && InOrder(steps) && forall st :: st in steps ==> st != Install {
          NoInstallNeverStale(t, steps, f);
          NothingIsLost(t, steps, f);
        }
      }
    }
  }

  lemma StaleLoses(s: Board)
    requires AllKept(s) && Enabled(s, Install) && Stale(s, Install)
    ensures CanLose(Next(s, Install))
  {
    var t := Next(s, Install);
    var t1 := Next(t, Edit);
    var t2 := Next(t1, Tick);
    var rest, f := StoreAll(t2);
    var steps := [Edit] + ([Tick] + rest);
    assert steps[1..] == [Tick] + rest && ([Tick] + rest)[1..] == rest;
    assert Runs(t1, [Tick] + rest, f);
    assert f.stored == s.loading.value.value + {s.nextChange};
    var missed :| missed in s.handedOver && missed !in s.loading.value.value;
    assert missed in f.handedOver && missed !in f.stored;
    assert LosingRun(t, steps, f);
  }

  /** So it does happen: a board is edited and left, and opened again when the tick has handed
      its snapshot over but the database has not stored it. */
  lemma SlowSaveIsOverwritten() returns (s: Board)
    ensures Runs(EMPTY, [BeginLoad, Read, Install, Edit, Close, Tick, BeginLoad, Read, Store(0)], s)
    ensures AllKept(s) && Stale(s, Install) && CanLose(Next(s, Install))
  {
    var s1 := Next(EMPTY, BeginLoad);
    var s2 := Next(s1, Read);
    var s3 := Next(s2, Install);
    var s4 := Next(s3, Edit);
    var s5 := Next(s4, Close);
    var s6 := Next(s5, Tick);
    var s7 := Next(s6, BeginLoad);
    var s8 := Next(s7, Read);
    assert s8 == Board({}, [{0}], None, Some(Some({})), 1, {0});
    s := Next(s8, Store(0));
    assert s == Board({0}, [], None, Some(Some({})), 1, {0});
    var steps := [BeginLoad, Read, Install, Edit, Close, Tick, BeginLoad, Read, Store(0)];
    Chain([EMPTY, s1, s2, s3, s4, s5, s6, s7, s8, s], steps);
    StaleLoses(s);
  }

  /** ---- saves that overtake each other ---- */

  /** Nobody waits for `saveToMongo`, so saves may be stored in any order. */
  ghost predicate StoresOnly(steps: seq<Step>) {
    forall i :: 0 <= i < |steps| ==> steps[i].Store?
  }

  /** Whatever the order in which the saves on their way are stored, nothing is missing then. */
  ghost predicate EveryOrderStoresAll(s: Board) {
    forall steps, f :: StoresOnly(steps) && Runs(s, steps, f) && f.saves == [] ==> f.handedOver <= f.stored
  }

  /** Every snapshot that may be stored last has all that was handed over. */
  ghost predicate OnlyCompleteOnTheirWay(s: Board) {
    if s.saves == [] then s.handedOver <= s.stored
    else forall i :: 0 <= i < |s.saves| ==> s.handedOver <= s.saves[i]
  }

  lemma {:induction false} CompleteStay(s: Board, steps: seq<Step>, f: Board)
    requires OnlyCompleteOnTheirWay(s) && StoresOnly(steps) && Runs(s, steps, f)
    ensures OnlyCompleteOnTheirWay(f)
    decreases |steps|
  {
    if steps != [] {
      var t := Next(s, steps[0]);
      assert forall i :: 0 <= i < |t.saves| ==> t.saves[i] == s.saves[if i < steps[0].i then i else i + 1];
      CompleteStay(t, steps[1..], f);
    }
  }

  /** The save at `last` can be stored after all others. */
  lemma {:induction false} StoreLast(s: Board, last: nat) returns (steps: seq<Step>, f: Board)
    requires last < |s.saves|
    ensures StoresOnly(steps) && Runs(s, steps, f) && f.saves == []
    ensures f.stored == s.saves[last] && f.handedOver == s.handedOver
    decreases |s.saves|
  {
    if |s.saves| == 1 {
      f := Next(s, Store(0));
      steps := [Store(0)];
      assert f.saves == [] && steps[1..] == [];
    } else {
      var i := if last == 0 then 1 else 0;
      var rest;
      rest, f := StoreLast(Next(s, Store(i)), if last == 0 then 0 else last - 1);
      steps := [Store(i)] + rest;
      assert steps[1..] == rest;
    }
  }

  /** Every order in which the saves on their way can be stored is a good one if and only if each
      of them has all that was handed over: a second one handed over meanwhile makes the first
      one a danger. */
  lemma EveryOrderStoresAllIff(s: Board)
    ensures EveryOrderStoresAll(s) <==> OnlyCompleteOnTheirWay(s)
  {
    if OnlyCompleteOnTheirWay(s) {
      forall steps, f | StoresOnly(steps) && Runs(s, steps, f) && f.saves == [] ensures f.handedOver <= f.stored {
        CompleteStay(s, steps, f);
      }
    } else if s.saves == [] {
      assert StoresOnly([]) && Runs(s, [], s);
    } else {
      var i :| 0 <= i < |s.saves| && !(s.handedOver <= s.saves[i]);
      var steps, f := StoreLast(s, i);
    }
  }

  /** Every hand-over happens when no other save is on its way. */
  ghost predicate OneSaveAtATime(s: Board, steps: seq<Step>)
    decreases |steps|
  {
    steps != [] ==>
      Enabled(s, steps[0]) && (steps[0].Tick? && s.room.Some? && s.room.value.needsPersist ==> s.saves == []) &&
      OneSaveAtATime(Next(s, steps[0]), steps[1..])
  }

  /** Then there is only one order, and without a stale load nothing is lost. */
  lemma {:induction false} OneAtATimeIsInOrder(s: Board, steps: seq<Step>)
    requires |s.saves| <= 1 && OneSaveAtATime(s, steps)
    ensures InOrder(steps)
    decreases |steps|
  {
    if steps != [] {
      OneAtATimeIsInOrder(Next(s, steps[0]), steps[1..]);
      assert forall i :: 1 <= i < |steps| ==> steps[i] == steps[1..][i - 1];
    }
  }

  /** A room that was just loaded is edited across two ticks. */
  function TwoSaves(): seq<Board> {
    [ Board({}, [], Some(Room({}, false, false)), None, 0, {}),
      Board({}, [], Some(Room({0}, false, true)), None, 1, {}),
      Board({}, [{0}], Some(Room({0}, false, false)), None, 1, {0}),
      Board({}, [{0}], Some(Room({0, 1}, false, true)), None, 2, {0}),
      Board({}, [{0}, {0, 1}], Some(Room({0, 1}, false, false)), None, 2, {0, 1}),
      Board({0, 1}, [{0}], Some(Room({0, 1}, false, false)), None, 2, {0, 1}),
      Board({0}, [], Some(Room({0, 1}, false, false)), None, 2, {0, 1}) ]
  }

  lemma FirstSave()
    ensures OneStep(TwoSaves()[0], Edit, TwoSaves()[1]) && OneStep(TwoSaves()[1], Tick, TwoSaves()[2])
  {
    var s := TwoSaves();
    assert {} + {0} == {0};
    assert s[1].saves + [{0}] == s[2].saves;
  }

  lemma SecondSave()
    ensures OneStep(TwoSaves()[2], Edit, TwoSaves()[3]) && OneStep(TwoSaves()[3], Tick, TwoSaves()[4])
  {
    var s := TwoSaves();
    assert {0} + {1} == {0, 1} && {0} + {0, 1} == {0, 1};
    assert s[3].saves + [{0, 1}] == s[4].saves;
  }

  lemma StoredTheOtherWayRound()
    ensures OneStep(TwoSaves()[4], Store(1), TwoSaves()[5]) && OneStep(TwoSaves()[5], Store(0), TwoSaves()[6])
  {
    var s := TwoSaves();
    assert s[4].saves[..1] + s[4].saves[2..] == [{0}];
    assert s[5].saves[..0] + s[5].saves[1..] == [];
  }

  /** It does happen otherwise: a board is edited across two ticks, the second save is stored
      first, and no load is involved. */
  lemma OlderSaveIsStoredLast() returns (s: Board)
    ensures Runs(EMPTY, [BeginLoad, Read, Install, Edit, Tick, Edit, Tick, Store(1), Store(0)], s)
    ensures s.saves == [] && s.handedOver == {0, 1} && s.stored == {0}
  {
    hide Runs, TickBoard;
    FirstSave();
    SecondSave();
    StoredTheOtherWayRound();
    s := TwoSaves()[6];
    var s1 := Next(EMPTY, BeginLoad);
    var s2 := Next(s1, Read);
    assert Next(s2, Install) == TwoSaves()[0];
    Chain([EMPTY, s1, s2] + TwoSaves(), [BeginLoad, Read, Install, Edit, Tick, Edit, Tick, Store(1), Store(0)]);
  }

  lemma {:induction false} Chain(states: seq<Board>, steps: seq<Step>)
    requires |states| == |steps| + 1
    requires forall i :: 0 <= i < |steps| ==> OneStep(states[i], steps[i], states[i + 1])
    ensures Runs(states[0], steps, states[|steps|])
    decreases |steps|
  {
    if steps != [] {
      assert OneStep(states[0], steps[0], states[1]);
      forall i | 0 <= i < |steps[1..]| ensures OneStep(states[1..][i], steps[1..][i], states[1..][i + 1]) {
        assert OneStep(states[i + 1], steps[i + 1], states[i + 2]);
      }
      Chain(states[1..], steps[1..]);
    }
  }

  ghost predicate OneStep(s: Board, st: Step, t: Board) {
    Enabled(s, st) && Next(s, st) == t
  }
}
