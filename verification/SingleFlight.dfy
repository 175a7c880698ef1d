/** Two guards against running twice at once.  The group refresh tests and sets its flag in
    one stretch; the LDAP synchronisation has an `await` between the test and the set. */
module SingleFlight {

  /** ---- updateGroupsAndMembersInCache ---- */

  datatype Phase = FetchingGroups | CachingSchools | CachingBySchool | UpdatingMembers | Skipped | Finished(ok: bool) {
    predicate Running() { !Skipped? && !Finished? }
  }

  datatype Refresh = Refresh(ldapSyncActive: bool, initialized: bool, isUpdating: bool, callers: seq<Phase>)

  datatype Step = Call | Advance(c: nat, fails: bool) | LdapSyncActive(active: bool)

  predicate Enabled(s: Refresh, st: Step) {
    st.Advance? ==> st.c < |s.callers| && s.callers[st.c].Running()
  }

  function Begin(s: Refresh): Refresh {
    if (s.ldapSyncActive && s.initialized) || s.isUpdating then s.(callers := s.callers + [Skipped])
    else s.(isUpdating := true, callers := s.callers + [FetchingGroups])
  }

  /** After an `await`: a failure ends in `catch` and `finally`, and so does the last stretch. */
  function Proceed(s: Refresh, c: nat, fails: bool): Refresh
    requires c < |s.callers|
  {
    if fails then s.(isUpdating := false, callers := s.callers[c := Finished(false)])
    else
      match s.callers[c]
      case FetchingGroups => s.(callers := s.callers[c := CachingSchools])
      case CachingSchools => s.(callers := s.callers[c := CachingBySchool])
      case CachingBySchool => s.(callers := s.callers[c := UpdatingMembers])
      case UpdatingMembers => s.(isUpdating := false, initialized := true, callers := s.callers[c := Finished(true)])
      case _ => s
  }

  function Next(s: Refresh, st: Step): Refresh
    requires Enabled(s, st)
  {
    match st
    case Call => Begin(s)
    case Advance(c, fails) => Proceed(s, c, fails)
    case LdapSyncActive(active) => s.(ldapSyncActive := active)
  }

  ghost predicate Runs(s: Refresh, steps: seq<Step>, f: Refresh)
    decreases |steps|
  {
    if steps == [] then f == s else Enabled(s, steps[0]) && Runs(Next(s, steps[0]), steps[1..], f)
  }

  function RunningCalls(callers: seq<Phase>): nat {
    if callers == [] then 0 else (if callers[0].Running() then 1 else 0) + RunningCalls(callers[1..])
  }

  lemma {:induction false} CountUpdate(callers: seq<Phase>, c: nat, p: Phase)
    requires c < |callers|
    ensures RunningCalls(callers[c := p]) ==
      RunningCalls(callers) - (if callers[c].Running() then 1 else 0) + (if p.Running() then 1 else 0)
  {
    if c > 0 {
      CountUpdate(callers[1..], c - 1, p);
      assert callers[c := p][1..] == callers[1..][c - 1 := p];
    } else {
      assert callers[c := p][1..] == callers[1..];
    }
  }

  lemma {:induction false} CountAppend(callers: seq<Phase>, p: Phase)
    ensures RunningCalls(callers + [p]) == RunningCalls(callers) + (if p.Running() then 1 else 0)
  {
    if callers != [] {
      CountAppend(callers[1..], p);
      assert (callers + [p])[1..] == callers[1..] + [p];
    }
  }

  /** In every interleaving the number of running refreshes is one while the flag is set and
      zero otherwise: never two at once, and the flag is cleared on every way out. */
  lemma {:induction false} FlagCountsTheRunningRefresh(s: Refresh, steps: seq<Step>, f: Refresh)
    requires RunningCalls(s.callers) == (if s.isUpdating then 1 else 0) && Runs(s, steps, f)
    ensures RunningCalls(f.callers) == if f.isUpdating then 1 else 0
    decreases |steps|
  {
    if steps != [] {
      var t := Next(s, steps[0]);
      match steps[0] {
        case Call => CountAppend(s.callers, t.callers[|s.callers|]);
        case Advance(c, _) => CountUpdate(s.callers, c, t.callers[c]);
        case LdapSyncActive(_) =>
      }
      FlagCountsTheRunningRefresh(t, steps[1..], f);
    }
  }

  /** What the last notice about the LDAP synchronisation said. */
  function IsActiveAfter(active: bool, steps: seq<Step>): bool
    decreases |steps|
  {
    if steps == [] then active
    else IsActiveAfter(if steps[0].LdapSyncActive? then steps[0].active else active, steps[1..])
  }

  ghost predicate SomeRuns(callers: seq<Phase>) {
    exists c :: 0 <= c < |callers| && callers[c].Running()
  }

  /** A refresh has got to its end. */
  ghost predicate SomeSucceeded(callers: seq<Phase>) {
    exists c :: 0 <= c < |callers| && callers[c] == Finished(true)
  }

  lemma {:induction false} CountedRuns(callers: seq<Phase>)
    ensures RunningCalls(callers) > 0 <==> SomeRuns(callers)
  {
    if callers != [] {
      CountedRuns(callers[1..]);
      if c :| 0 <= c < |callers| && callers[c].Running() {
        assert c > 0 ==> callers[1..][c - 1].Running();
      }
    }
  }

  lemma SuccessSetsInitialized(s: Refresh, st: Step)
    requires Enabled(s, st) && (s.initialized <==> SomeSucceeded(s.callers))
    ensures Next(s, st).initialized <==> SomeSucceeded(Next(s, st).callers)
  {
    var t := Next(s, st);
    if c :| 0 <= c < |s.callers| && s.callers[c] == Finished(true) {
      assert t.callers[c] == Finished(true);
    }
    if st.Advance? && s.callers[st.c].UpdatingMembers? && !st.fails {
      assert t.callers[st.c] == Finished(true);
    }
  }

  lemma {:induction false} InitializedMeans(s: Refresh, steps: seq<Step>, f: Refresh)
    requires (s.initialized <==> SomeSucceeded(s.callers)) && Runs(s, steps, f)
    ensures f.initialized <==> SomeSucceeded(f.callers)
    ensures f.ldapSyncActive == IsActiveAfter(s.ldapSyncActive, steps)
    decreases |steps|
  {
    if steps != [] {
      SuccessSetsInitialized(s, steps[0]);
      InitializedMeans(Next(s, steps[0]), steps[1..], f);
    }
  }

  /** In every interleaving a call is skipped exactly if a refresh runs, or if one has succeeded
      before and an LDAP synchronisation is active; every other call begins a refresh, and one
      that runs can go on or fail. */
  lemma SkippedIff(steps: seq<Step>, s: Refresh)
    requires Runs(Refresh(false, false, false, []), steps, s)
    ensures var t := Next(s, Call);
      && t.callers == s.callers + [t.callers[|s.callers|]]
      && t.callers[|s.callers|] ==
           if SomeRuns(s.callers) || (IsActiveAfter(false, steps) && SomeSucceeded(s.callers)) then Skipped else FetchingGroups
    ensures forall c, fails :: 0 <= c < |s.callers| && s.callers[c].Running() ==> Enabled(s, Advance(c, fails))
  {
    InitializedMeans(Refresh(false, false, false, []), steps, s);
    FlagCountsTheRunningRefresh(Refresh(false, false, false, []), steps, s);
    CountedRuns(s.callers);
  }

  /** The flag and the calls of the refresh service. */
  class RefreshGuard {
    var ldapSyncActive: bool
    var initialized: bool
    var isUpdating: bool
    var callers: seq<Phase>

    ghost function St(): Refresh
      reads this
    {
      Refresh(ldapSyncActive, initialized, isUpdating, callers)
    }

    constructor ()
      ensures St() == Refresh(false, false, false, [])
    {
      ldapSyncActive, initialized, isUpdating, callers := false, false, false, [];
    }

    method UpdateGroupsAndMembersInCache()
      modifies this
      ensures St() == Begin(old(St()))
    {
      if ldapSyncActive && initialized {
        callers := callers + [Skipped];
        return;
      }
      if isUpdating {
        callers := callers + [Skipped];
        return;
      }
      isUpdating := true;
      callers := callers + [FetchingGroups];
    }

    method Resume(c: nat, fails: bool)
      requires c < |callers| && callers[c].Running()
      modifies this
      ensures St() == Proceed(old(St()), c, fails)
    {
      if fails {
        callers := callers[c := Finished(false)];
        isUpdating := false;
        return;
      }
      match callers[c] {
        case FetchingGroups => callers := callers[c := CachingSchools];
        case CachingSchools => callers := callers[c := CachingBySchool];
        case CachingBySchool => callers := callers[c := UpdatingMembers];
        case UpdatingMembers =>
          initialized := true;
          callers := callers[c := Finished(true)];
          isUpdating := false;
      }
    }
  }

  /** ---- sync ---- */

  datatype SyncPhase = LoadingConfig | AskingTarget | Syncing | Ended

  datatype SyncGuard = SyncGuard(isSyncRunning: bool, callers: seq<SyncPhase>)

  datatype SyncStep = StartSync | Move(c: nat)

  predicate CanMove(s: SyncGuard, st: SyncStep) {
    st.Move? ==> st.c < |s.callers| && !s.callers[st.c].Ended?
  }

  /** The flag is tested when the configuration has been loaded, and set only when the
      deployment target has been asked for. */
  function NextSync(s: SyncGuard, st: SyncStep): SyncGuard
    requires CanMove(s, st)
  {
    match st
    case StartSync => s.(callers := s.callers + [LoadingConfig])
    case Move(c) =>
      match s.callers[c]
      case LoadingConfig => s.(callers := s.callers[c := if s.isSyncRunning then Ended else AskingTarget])
      case AskingTarget => SyncGuard(true, s.callers[c := Syncing])
      case Syncing => SyncGuard(false, s.callers[c := Ended])
      case Ended => s
  }

  ghost predicate SyncRuns(s: SyncGuard, steps: seq<SyncStep>, f: SyncGuard)
    decreases |steps|
  {
    if steps == [] then f == s else CanMove(s, steps[0]) && SyncRuns(NextSync(s, steps[0]), steps[1..], f)
  }

  /** One call tests the flag while another is between its test and its set. */
  ghost predicate Overlaps(s: SyncGuard, st: SyncStep) {
    st.Move? && st.c < |s.callers| && s.callers[st.c] == LoadingConfig && !s.isSyncRunning &&
    exists d :: 0 <= d < |s.callers| && s.callers[d] == AskingTarget
  }

  ghost predicate NeverOverlaps(s: SyncGuard, steps: seq<SyncStep>, f: SyncGuard)
    requires SyncRuns(s, steps, f)
    decreases |steps|
  {
    steps != [] ==> !Overlaps(s, steps[0]) && NeverOverlaps(NextSync(s, steps[0]), steps[1..], f)
  }

  /** At most one call is past its test, and the flag is set exactly while one is syncing. */
  ghost predicate Single(s: SyncGuard) {
    && (forall c, d :: 0 <= c < d < |s.callers| ==> !(PastTest(s.callers[c]) && PastTest(s.callers[d])))
    && (s.isSyncRunning <==> exists c :: 0 <= c < |s.callers| && s.callers[c] == Syncing)
  }

  predicate PastTest(p: SyncPhase) { p == AskingTarget || p == Syncing }

  lemma SingleStep(s: SyncGuard, st: SyncStep)
    requires Single(s) && CanMove(s, st) && !Overlaps(s, st)
    ensures Single(NextSync(s, st))
  {
    var t := NextSync(s, st);
    match st
    case StartSync =>
      if s.isSyncRunning {
        var c :| 0 <= c < |s.callers| && s.callers[c] == Syncing;
        assert t.callers[c] == Syncing;
      }
    case Move(c) =>
      if s.isSyncRunning {
        var d :| 0 <= d < |s.callers| && s.callers[d] == Syncing;
        assert d != c ==> t.callers[d] == Syncing;
      }
      if s.callers[c] == AskingTarget {
        assert t.callers[c] == Syncing;
      }
  }

  /** As long as no two calls overlap in that gap, no two synchronisations run at once. */
  lemma {:induction false} SingleWithoutOverlap(s: SyncGuard, steps: seq<SyncStep>, f: SyncGuard)
    requires Single(s) && SyncRuns(s, steps, f) && NeverOverlaps(s, steps, f)
    ensures Single(f)
    decreases |steps|
  {
    if steps != [] {
      SingleStep(s, steps[0]);
      SingleWithoutOverlap(NextSync(s, steps[0]), steps[1..], f);
    }
  }

  /** Every overlap leads to two synchronisations at once, if the two calls go on. */
  lemma OverlapRunsTwice(s: SyncGuard, c: nat) returns (d: nat, f: SyncGuard)
    requires Overlaps(s, Move(c))
    ensures d != c && d < |f.callers| == |s.callers|
    ensures SyncRuns(s, [Move(c), Move(c), Move(d)], f)
    ensures c < |f.callers| && f.callers[c] == f.callers[d] == Syncing
  {
    d :| 0 <= d < |s.callers| && s.callers[d] == AskingTarget;
    var s1 := NextSync(s, Move(c));
    var s2 := NextSync(s1, Move(c));
    f := NextSync(s2, Move(d));
    var steps := [Move(c), Move(c), Move(d)];
    assert steps[1..] == [Move(c), Move(d)] && steps[1..][1..] == [Move(d)] && steps[1..][1..][1..] == [];
    assert SyncRuns(f, [], f);
    assert SyncRuns(s2, [Move(d)], f);
    assert SyncRuns(s1, [Move(c), Move(d)], f);
  }

  /** From the start: two calls, each loading its configuration before the other sets the flag,
      synchronise at once; when one of them ends it clears the flag for both, and a third call
      joins the one that goes on. */
  lemma TwoSyncsAndAThird() returns (both: SyncGuard, third: SyncGuard)
    ensures SyncRuns(SyncGuard(false, []), [StartSync, StartSync, Move(0), Move(1), Move(0), Move(1)], both)
    ensures both.callers == [Syncing, Syncing]
    ensures SyncRuns(both, [Move(0), StartSync, Move(2), Move(2)], third)
    ensures third.callers == [Ended, Syncing, Syncing]
  {
    var s0 := SyncGuard(false, []);
    var s2 := SyncGuard(false, [LoadingConfig, LoadingConfig]);
    var s4 := SyncGuard(false, [AskingTarget, AskingTarget]);
    both := SyncGuard(true, [Syncing, Syncing]);
    var a := [StartSync, StartSync, Move(0), Move(1), Move(0), Move(1)];
    assert a[1..] == [StartSync, Move(0), Move(1), Move(0), Move(1)] && a[1..][1..] == [Move(0), Move(1), Move(0), Move(1)];
    TwoMoves(s4, both, []);
    assert [Move(0), Move(1)] + [] == [Move(0), Move(1)];
    TwoMoves(s2, s4, [Move(0), Move(1)]);
    assert [Move(0), Move(1)] + [Move(0), Move(1)] == [Move(0), Move(1), Move(0), Move(1)];
    var s1 := NextSync(s0, StartSync);
    assert NextSync(s1, StartSync) == s2;
    assert SyncRuns(s1, a[1..], both);
    FlagClearedTooEarly(both, 0, 1);
    var b := [Move(0), StartSync, Move(2), Move(2)];
    var t1 := NextSync(both, Move(0));
    var t2 := NextSync(t1, StartSync);
    var t3 := NextSync(t2, Move(2));
    third := NextSync(t3, Move(2));
    assert b[1..] == [StartSync, Move(2), Move(2)] && b[1..][1..] == [Move(2), Move(2)] && b[1..][1..][1..] == [Move(2)];
    assert SyncRuns(third, [], third);
    assert SyncRuns(t3, [Move(2)], third);
    assert SyncRuns(t2, [Move(2), Move(2)], third);
    assert SyncRuns(t1, b[1..], third);
  }

  lemma TwoMoves(s: SyncGuard, t: SyncGuard, rest: seq<SyncStep>)
    requires |s.callers| == 2 && s.callers[0] == s.callers[1] && !s.isSyncRunning
    requires s.callers[0] == LoadingConfig || s.callers[0] == AskingTarget
    requires t == NextSync(NextSync(s, Move(0)), Move(1))
    ensures forall f :: SyncRuns(t, rest, f) ==> SyncRuns(s, [Move(0), Move(1)] + rest, f)
  {
    var steps := [Move(0), Move(1)] + rest;
    assert steps[1..] == [Move(1)] + rest && steps[1..][1..] == rest;
    forall f | SyncRuns(t, rest, f) ensures SyncRuns(s, steps, f) {
      assert SyncRuns(NextSync(s, Move(0)), steps[1..], f);
    }
  }

  /** And the flag does not even tell: the first to end clears it for both. */
  lemma FlagClearedTooEarly(s: SyncGuard, c: nat, d: nat)
    requires c < |s.callers| && d < |s.callers| && c != d && s.callers[c] == s.callers[d] == Syncing
    ensures !NextSync(s, Move(c)).isSyncRunning && NextSync(s, Move(c)).callers[d] == Syncing
  {
  }
}
