/** `sync`: one task per LDAP group makes sure that the group exists in Keycloak, compares
    the cached members with the resolved ones, records edits and rewrites the cache; the
    tasks run interleaved.  Then the edits are applied and stale groups are deleted. */
module LdapSync {
  import opened Types
  import opened LdapUpdates
  import LdapNames

  /** What a synchronisation reads: the members each LDAP group resolves to, by group path,
      and the group Keycloak returns when a path is created. */
  datatype Env = Env(desired: map<string, seq<User>>, created: string -> Group)

  datatype Task =
    | Begun
    | Ensured(group: Group)
    | Writing(group: Group)  // edits recorded, the cache write is still running
    | Done

  datatype Sync = Sync(
    tasks: map<string, Task>,
    groupsByPath: map<string, Group>,
    memberCache: map<string, seq<User>>,
    updates: seq<Update>,
    keycloakGroups: map<string, Group>,
    failed: bool)

  function Ids(users: seq<User>): set<string> {
    set u | u in users :: u.id
  }

  function Usernames(users: seq<User>): set<string> {
    set u | u in users :: u.username
  }

  /** `getCachedGroupMembers` */
  function Cached(s: Sync, path: string): seq<User> {
    if path in s.memberCache then s.memberCache[path] else []
  }

  /** `users.filter((m) => !names.has(m.username))` */
  function NotNamed(users: seq<User>, names: set<string>): (r: seq<User>)
    ensures forall u :: u in r <==> u in users && u.username !in names
  {
    if users == [] then []
    else (if users[0].username in names then [] else [users[0]]) + NotNamed(users[1..], names)
  }

  function AddEdits(users: seq<User>, group: string): (r: seq<Update>)
    ensures |r| == |users| && forall i :: 0 <= i < |r| ==> r[i] == Update(users[i].id, [group], [])
  {
    seq(|users|, i requires 0 <= i < |users| => Update(users[i].id, [group], []))
  }

  function RemoveEdits(users: seq<User>, group: string): (r: seq<Update>)
    ensures |r| == |users| && forall i :: 0 <= i < |r| ==> r[i] == Update(users[i].id, [], [group])
  {
    seq(|users|, i requires 0 <= i < |users| => Update(users[i].id, [], [group]))
  }

  function Edits(group: string, resolved: seq<User>, current: seq<User>): seq<Update> {
    AddEdits(NotNamed(resolved, Usernames(current)), group) +
    RemoveEdits(NotNamed(current, Usernames(resolved)), group)
  }

  /** `ensureKeycloakGroupUsingCache`.  Creating a path that Keycloak already holds fails. */
  function EnsureGroup(env: Env, s: Sync, path: string): Sync {
    if path in s.groupsByPath then s.(tasks := s.tasks[path := Ensured(s.groupsByPath[path])])
    else if path in s.keycloakGroups then s.(failed := true)
    else
      var group := env.created(path);
      s.(keycloakGroups := s.keycloakGroups[path := group],
         groupsByPath := s.groupsByPath[path := group],
         memberCache := s.memberCache[path := []],
         tasks := s.tasks[path := Ensured(group)])
  }

  function Compare(env: Env, s: Sync, path: string, group: Group): Sync
    requires path in env.desired
  {
    var edits := Edits(group.id, env.desired[path], Cached(s, path));
    s.(updates := s.updates + edits,
       tasks := s.tasks[path := if edits == [] then Done else Writing(group)])
  }

  function WriteCache(env: Env, s: Sync, path: string): Sync
    requires path in env.desired
  {
    s.(memberCache := s.memberCache[path := SanitizeMembers(env.desired[path])],
       tasks := s.tasks[path := Done])
  }

  function Step(env: Env, s: Sync, path: string): Sync
    requires path in env.desired && path in s.tasks
  {
    match s.tasks[path]
    case Begun => EnsureGroup(env, s, path)
    case Ensured(group) => Compare(env, s, path, group)
    case Writing(_) => WriteCache(env, s, path)
    case Done => s
  }

  /** Tasks move in any order; `order` names the one that moves next. */
  ghost predicate Runs(env: Env, s: Sync, order: seq<string>, f: Sync)
    decreases |order|
  {
    if order == [] then f == s
    else
      order[0] in env.desired && order[0] in s.tasks &&
      Runs(env, Step(env, s, order[0]), order[1..], f)
  }

  ghost predicate Finished(s: Sync) {
    !s.failed && forall p :: p in s.tasks ==> s.tasks[p].Done?
  }

  ghost predicate Initial(env: Env, s: Sync) {
    && s.tasks.Keys == env.desired.Keys
    && (forall p :: p in s.tasks ==> s.tasks[p] == Begun)
    && s.updates == [] && !s.failed
  }

  /** The members the cache holds for a group that was known when the run started. */
  function Before(s0: Sync, path: string): seq<User> {
    if path in s0.groupsByPath then Cached(s0, path) else []
  }

  /** One id per username and the other way round. */
  ghost predicate Paired(a: seq<User>, b: seq<User>) {
    forall u, v :: u in a + b && v in a + b ==> (u.id == v.id <==> u.username == v.username)
  }

  /** Different paths are different groups, and a group Keycloak creates is new. */
  ghost predicate DistinctIds(env: Env, s: Sync) {
    && (forall p, q :: p in s.groupsByPath && q in s.groupsByPath && s.groupsByPath[p].id == s.groupsByPath[q].id ==> p == q)
    && (forall p, q :: env.created(p).id == env.created(q).id ==> p == q)
    && (forall p, q :: q in s.groupsByPath && q != p ==> env.created(p).id != s.groupsByPath[q].id)
  }

  ghost predicate Usable(env: Env, s: Sync) {
    Initial(env, s) && DistinctIds(env, s)
  }

  ghost function GroupOf(env: Env, s0: Sync, path: string): Group {
    if path in s0.groupsByPath then s0.groupsByPath[path] else env.created(path)
  }

  /** The users that the recorded edits add to a group, and those they remove from it. */
  ghost function AddedTo(updates: seq<Update>, group: string): set<string> {
    set i | 0 <= i < |updates| && group in updates[i].add :: updates[i].userId
  }

  ghost function RemovedFrom(updates: seq<Update>, group: string): set<string> {
    set i | 0 <= i < |updates| && group in updates[i].remove :: updates[i].userId
  }

  lemma AddedToMeaning(updates: seq<Update>, p: Pair)
    ensures p.0 in AddedTo(updates, p.1) <==> Added(updates, p)
    ensures p.0 in RemovedFrom(updates, p.1) <==> Removed(updates, p)
  {
  }

  lemma AddedToAppend(a: seq<Update>, b: seq<Update>, g: string)
    ensures AddedTo(a + b, g) == AddedTo(a, g) + AddedTo(b, g)
    ensures RemovedFrom(a + b, g) == RemovedFrom(a, g) + RemovedFrom(b, g)
  {
    var c := a + b;
    assert forall i :: 0 <= i < |a| ==> c[i] == a[i];
    assert forall i :: 0 <= i < |b| ==> c[|a| + i] == b[i];
    forall u | u in AddedTo(a, g) + AddedTo(b, g) ensures u in AddedTo(c, g) {
      if i :| 0 <= i < |a| && g in a[i].add && a[i].userId == u {
        assert g in c[i].add;
      } else {
        var i :| 0 <= i < |b| && g in b[i].add && b[i].userId == u;
        assert g in c[|a| + i].add;
      }
    }
    forall u | u in RemovedFrom(a, g) + RemovedFrom(b, g) ensures u in RemovedFrom(c, g) {
      if i :| 0 <= i < |a| && g in a[i].remove && a[i].userId == u {
        assert g in c[i].remove;
      } else {
        var i :| 0 <= i < |b| && g in b[i].remove && b[i].userId == u;
        assert g in c[|a| + i].remove;
      }
    }
  }

  lemma EditListMeaning(users: seq<User>, group: string, g: string)
    ensures AddedTo(AddEdits(users, group), g) == if g == group then Ids(users) else {}
    ensures RemovedFrom(AddEdits(users, group), g) == {}
    ensures RemovedFrom(RemoveEdits(users, group), g) == if g == group then Ids(users) else {}
    ensures AddedTo(RemoveEdits(users, group), g) == {}
  {
    var adds, removes := AddEdits(users, group), RemoveEdits(users, group);
    forall u | u in Ids(users) && g == group
      ensures u in AddedTo(adds, g) && u in RemovedFrom(removes, g)
    {
      var i :| 0 <= i < |users| && users[i].id == u;
      assert g in adds[i].add && g in removes[i].remove;
    }
  }

  /** The ids that `a` carries under some username that `b` does not have. */
  ghost function Unnamed(a: seq<User>, b: seq<User>): set<string> {
    Ids(NotNamed(a, Usernames(b)))
  }

  /** The comparison is by username, the edits are by id: an account with a new username is on
      both lists. */
  lemma EditsMeaning(group: string, resolved: seq<User>, current: seq<User>, g: string)
    ensures AddedTo(Edits(group, resolved, current), g) == if g == group then Unnamed(resolved, current) else {}
    ensures RemovedFrom(Edits(group, resolved, current), g) == if g == group then Unnamed(current, resolved) else {}
  {
    var toAdd, toRemove := NotNamed(resolved, Usernames(current)), NotNamed(current, Usernames(resolved));
    AddedToAppend(AddEdits(toAdd, group), RemoveEdits(toRemove, group), g);
    EditListMeaning(toAdd, group, g);
    EditListMeaning(toRemove, group, g);
  }

  /** For paired ids and usernames these are exactly the missing and the unwanted accounts. */
  lemma PairedEdits(a: seq<User>, b: seq<User>)
    requires Paired(a, b)
    ensures Unnamed(a, b) == Ids(a) - Ids(b)
  {
    forall u | u in a ensures u.username in Usernames(b) <==> u.id in Ids(b) {
      if u.username in Usernames(b) {
        var v :| v in b && v.username == u.username;
        assert u in a + b && v in a + b;
      }
      if u.id in Ids(b) {
        var v :| v in b && v.id == u.id;
        assert u in a + b && v in a + b;
      }
    }
  }

  /** Some id is carried by a wanted user whose name is not cached and by a cached user whose
      name is not wanted. */
  ghost predicate Renames(want: seq<User>, had: seq<User>) {
    exists u, v :: u in want && v in had && u.id == v.id && u.username !in Usernames(had) && v.username !in Usernames(want)
  }

  lemma RenamesMeaning(want: seq<User>, had: seq<User>)
    ensures Renames(want, had) <==> !(Unnamed(want, had) !! Unnamed(had, want))
  {
    if id :| id in Unnamed(want, had) && id in Unnamed(had, want) {
      var u :| u in NotNamed(want, Usernames(had)) && u.id == id;
      var v :| v in NotNamed(had, Usernames(want)) && v.id == id;
    }
    if u, v :| u in want && v in had && u.id == v.id && u.username !in Usernames(had) && v.username !in Usernames(want) {
      assert u in NotNamed(want, Usernames(had)) && v in NotNamed(had, Usernames(want));
      assert u.id in Unnamed(want, had) && u.id in Unnamed(had, want);
    }
  }

  lemma {:induction false} NobodyUnnamed(users: seq<User>, names: set<string>)
    requires Usernames(users) <= names
    ensures NotNamed(users, names) == []
  {
    if users != [] {
      assert users[0].username in Usernames(users);
      assert Usernames(users[1..]) <= Usernames(users);
      NobodyUnnamed(users[1..], names);
    }
  }

  /** No edits exactly when the two lists hold the same people. */
  lemma NoEditsIffSame(group: string, resolved: seq<User>, current: seq<User>)
    ensures Edits(group, resolved, current) == [] <==> Usernames(resolved) == Usernames(current)
  {
    var toAdd, toRemove := NotNamed(resolved, Usernames(current)), NotNamed(current, Usernames(resolved));
    if Usernames(resolved) == Usernames(current) {
      NobodyUnnamed(resolved, Usernames(current));
      NobodyUnnamed(current, Usernames(resolved));
    } else if Edits(group, resolved, current) == [] {
      assert |toAdd| == |AddEdits(toAdd, group)| == 0 && |toRemove| == |RemoveEdits(toRemove, group)| == 0;
      forall u | u in resolved ensures u.username in Usernames(current) { assert u !in toAdd; }
      forall u | u in current ensures u.username in Usernames(resolved) { assert u !in toRemove; }
    }
  }

  lemma NobodyUnnamedIffSame(want: seq<User>, had: seq<User>)
    ensures Unnamed(want, had) == {} == Unnamed(had, want) <==> Usernames(want) == Usernames(had)
  {
    var toAdd, toRemove := NotNamed(want, Usernames(had)), NotNamed(had, Usernames(want));
    NoEditsIffSame("", want, had);
    assert |Edits("", want, had)| == |toAdd| + |toRemove|;
    assert toAdd != [] ==> toAdd[0].id in Ids(toAdd);
    assert toRemove != [] ==> toRemove[0].id in Ids(toRemove);
  }

  /** What the cache holds in the end: it is written only when there are edits, and without
      members whose id or username is blank. */
  function CachedAfter(want: seq<User>, had: seq<User>): seq<User> {
    if Usernames(want) == Usernames(had) then had else SanitizeMembers(want)
  }

  ghost predicate AllValid(users: seq<User>) {
    forall u :: u in users ==> ValidMember(u)
  }

  lemma CachedAfterNames(want: seq<User>, had: seq<User>)
    requires AllValid(want)
    ensures Usernames(CachedAfter(want, had)) == Usernames(want)
  {
  }

  /** The part of the state that belongs to one path, with `group` as the group's id. */
  datatype Slice = Slice(task: Task, known: Option<Group>, cached: seq<User>, added: set<string>, removed: set<string>)

  ghost function SliceOf(s: Sync, p: string, group: string): Slice
    requires p in s.tasks
  {
    Slice(s.tasks[p], if p in s.groupsByPath then Some(s.groupsByPath[p]) else None, Cached(s, p),
          AddedTo(s.updates, group), RemovedFrom(s.updates, group))
  }

  /** What is true of one path while its task is in a given phase: `want` are the members to
      reach and `had` the members cached at the start. */
  ghost predicate SliceInv(sl: Slice, group: Group, want: seq<User>, had: seq<User>, wasKnown: bool) {
    match sl.task
    case Begun =>
      && (if wasKnown then sl.known == Some(group) && sl.cached == had else sl.known == None && had == [])
      && sl.added == sl.removed == {}
    case Ensured(g) => g == group && sl.known == Some(group) && sl.cached == had && sl.added == sl.removed == {}
    case Writing(g) =>
      g == group && sl.known == Some(group) && IsDifference(sl, want, had) && Usernames(want) != Usernames(had)
    case Done =>
      sl.known == Some(group) && IsDifference(sl, want, had) && sl.cached == CachedAfter(want, had)
  }

  ghost predicate IsDifference(sl: Slice, want: seq<User>, had: seq<User>) {
    sl.added == Unnamed(want, had) && sl.removed == Unnamed(had, want)
  }

  ghost predicate PathInv(env: Env, s0: Sync, s: Sync, p: string)
    requires p in env.desired && p in s.tasks
  {
    var group := GroupOf(env, s0, p);
    SliceInv(SliceOf(s, p, group.id), group, env.desired[p], Before(s0, p), p in s0.groupsByPath)
  }

  ghost predicate Inv(env: Env, s0: Sync, s: Sync) {
    && s.tasks.Keys == env.desired.Keys
    && (forall p :: p in env.desired ==> PathInv(env, s0, s, p))
    && (forall p :: p !in env.desired ==> (p in s.groupsByPath <==> p in s0.groupsByPath))
    && (forall p :: p in s0.groupsByPath ==> p in s.groupsByPath && s.groupsByPath[p] == s0.groupsByPath[p])
    && (forall g :: Foreign(env, s0, g) ==> AddedTo(s.updates, g) == RemovedFrom(s.updates, g) == {})
  }

  /** The id of no LDAP group. */
  ghost predicate Foreign(env: Env, s0: Sync, g: string) {
    forall p :: p in env.desired ==> GroupOf(env, s0, p).id != g
  }

  lemma InitialInv(env: Env, s0: Sync)
    requires Usable(env, s0)
    ensures Inv(env, s0, s0)
  {
  }

  lemma GroupsApart(env: Env, s0: Sync, p: string, q: string)
    requires DistinctIds(env, s0) && p != q
    ensures GroupOf(env, s0, p).id != GroupOf(env, s0, q).id
  {
  }

  /** Recording one group's difference leaves the edits of every other group alone. */
  lemma CompareTouches(updates: seq<Update>, g: string, want: seq<User>, had: seq<User>, other: string)
    ensures var after := updates + Edits(g, want, had);
      && AddedTo(after, other) == AddedTo(updates, other) + (if other == g then Unnamed(want, had) else {})
      && RemovedFrom(after, other) == RemovedFrom(updates, other) + (if other == g then Unnamed(had, want) else {})
  {
    AddedToAppend(updates, Edits(g, want, had), other);
    EditsMeaning(g, want, had, other);
  }

  lemma CompareKeepsOwnPath(env: Env, s0: Sync, s: Sync, p: string)
    requires p in env.desired && p in s.tasks && PathInv(env, s0, s, p) && s.tasks[p].Ensured?
    ensures PathInv(env, s0, Step(env, s, p), p)
  {
    hide Edits, Unnamed, AddedTo, RemovedFrom, SanitizeMembers;
    var want, had, g := env.desired[p], Before(s0, p), GroupOf(env, s0, p).id;
    CompareTouches(s.updates, g, want, had, g);
    NoEditsIffSame(g, want, had);
  }

  lemma WritingKeepsOwnPath(env: Env, s0: Sync, s: Sync, p: string)
    requires p in env.desired && p in s.tasks && PathInv(env, s0, s, p) && s.tasks[p].Writing?
    ensures PathInv(env, s0, Step(env, s, p), p)
  {
    hide Edits, Unnamed, AddedTo, RemovedFrom, SanitizeMembers, Usernames;
  }

  lemma StepKeepsOwnPath(env: Env, s0: Sync, s: Sync, p: string)
    requires p in env.desired && p in s.tasks && PathInv(env, s0, s, p)
    ensures PathInv(env, s0, Step(env, s, p), p)
  {
    hide Edits, Unnamed, AddedTo, RemovedFrom, SanitizeMembers, Usernames;
    match s.tasks[p]
    case Begun =>
    case Ensured(_) => CompareKeepsOwnPath(env, s0, s, p);
    case Writing(_) => WritingKeepsOwnPath(env, s0, s, p);
    case Done =>
  }

  lemma StepKeepsOthers(env: Env, s0: Sync, s: Sync, p: string, x: string)
    requires p in env.desired && p in s.tasks && PathInv(env, s0, s, p)
    requires x != GroupOf(env, s0, p).id
    ensures AddedTo(Step(env, s, p).updates, x) == AddedTo(s.updates, x)
    ensures RemovedFrom(Step(env, s, p).updates, x) == RemovedFrom(s.updates, x)
    ensures forall q :: q in s.tasks && q != p ==> SliceOf(Step(env, s, p), q, x) == SliceOf(s, q, x)
  {
    hide Edits, Unnamed, AddedTo, RemovedFrom, SanitizeMembers;
    if s.tasks[p].Ensured? {
      CompareTouches(s.updates, GroupOf(env, s0, p).id, env.desired[p], Before(s0, p), x);
    }
  }

  lemma StepKeepsPath(env: Env, s0: Sync, s: Sync, p: string, q: string)
    requires p in env.desired && q in env.desired && p in s.tasks && q in s.tasks
    requires PathInv(env, s0, s, p) && PathInv(env, s0, s, q)
    requires DistinctIds(env, s0)
    ensures q in Step(env, s, p).tasks && PathInv(env, s0, Step(env, s, p), q)
  {
    if p == q {
      StepKeepsOwnPath(env, s0, s, p);
    } else {
      GroupsApart(env, s0, p, q);
      StepKeepsOthers(env, s0, s, p, GroupOf(env, s0, q).id);
    }
  }

  lemma StepKeepsGroups(env: Env, s: Sync, p: string)
    requires p in env.desired && p in s.tasks
    ensures var t := Step(env, s, p);
      && t.tasks.Keys == s.tasks.Keys
      && (forall q :: q != p ==> (q in t.groupsByPath <==> q in s.groupsByPath))
      && (forall q :: q in s.groupsByPath ==> q in t.groupsByPath && t.groupsByPath[q] == s.groupsByPath[q])
  {
    hide Edits, NotNamed, AddEdits, RemoveEdits, SanitizeMembers;
  }

  lemma StepInv(env: Env, s0: Sync, s: Sync, p: string)
    requires DistinctIds(env, s0) && Inv(env, s0, s) && p in env.desired
    ensures Inv(env, s0, Step(env, s, p))
  {
    var t := Step(env, s, p);
    StepKeepsGroups(env, s, p);
    forall q | q in env.desired ensures PathInv(env, s0, t, q) {
      StepKeepsPath(env, s0, s, p, q);
    }
    forall x | Foreign(env, s0, x) ensures AddedTo(t.updates, x) == RemovedFrom(t.updates, x) == {} {
      StepKeepsOthers(env, s0, s, p, x);
    }
  }

  lemma {:induction false} RunInv(env: Env, s0: Sync, s: Sync, order: seq<string>, f: Sync)
    requires Usable(env, s0) && Inv(env, s0, s) && Runs(env, s, order, f)
    ensures Inv(env, s0, f)
    decreases |order|
  {
    if order != [] {
      StepInv(env, s0, s, order[0]);
      RunInv(env, s0, Step(env, s, order[0]), order[1..], f);
    }
  }

  /** ---- what a run amounts to ---- */

  lemma RunFromStart(env: Env, s0: Sync, order: seq<string>, s: Sync)
    requires Usable(env, s0) && Runs(env, s0, order, s)
    ensures Inv(env, s0, s)
  {
    InitialInv(env, s0);
    RunInv(env, s0, s0, order, s);
  }

  function MembersOf(k: Memberships, group: string): set<string> {
    set m | m in k && m.1 == group :: m.0
  }

  /** The task of this group has recorded its difference. */
  ghost predicate HasCompared(s: Sync, p: string) {
    p in s.tasks && (s.tasks[p].Writing? || s.tasks[p].Done?)
  }

  /** At every moment of a run the edits contradict each other exactly when some group that has
      been compared has a renamed account. */
  lemma EditsConflictIffRenamed(env: Env, s0: Sync, order: seq<string>, s: Sync)
    requires Usable(env, s0) && Runs(env, s0, order, s)
    ensures NoConflict(s.updates) <==>
      forall p :: p in env.desired && HasCompared(s, p) ==> !Renames(env.desired[p], Before(s0, p))
  {
    hide Renames, Unnamed, Usable, Runs, SliceInv;
    RunFromStart(env, s0, order, s);
    if NoConflict(s.updates) {
      forall p | p in env.desired && HasCompared(s, p) ensures !Renames(env.desired[p], Before(s0, p)) {
        ComparedPath(env, s0, s, p);
        RenamesMeaning(env.desired[p], Before(s0, p));
        forall id ensures !(id in Unnamed(env.desired[p], Before(s0, p)) && id in Unnamed(Before(s0, p), env.desired[p])) {
          AddedToMeaning(s.updates, (id, GroupOf(env, s0, p).id));
        }
      }
    }
    if forall p :: p in env.desired && HasCompared(s, p) ==> !Renames(env.desired[p], Before(s0, p)) {
      forall m: Pair ensures !(Added(s.updates, m) && Removed(s.updates, m)) {
        AddedToMeaning(s.updates, m);
        if !Foreign(env, s0, m.1) {
          var p :| p in env.desired && GroupOf(env, s0, p).id == m.1;
          ComparedPath(env, s0, s, p);
          RenamesMeaning(env.desired[p], Before(s0, p));
        }
      }
    }
  }

  /** The edits of one group so far. */
  lemma ComparedPath(env: Env, s0: Sync, s: Sync, p: string)
    requires Inv(env, s0, s) && p in env.desired
    ensures var (g, compared) := (GroupOf(env, s0, p).id, HasCompared(s, p));
      && AddedTo(s.updates, g) == (if compared then Unnamed(env.desired[p], Before(s0, p)) else {})
      && RemovedFrom(s.updates, g) == (if compared then Unnamed(Before(s0, p), env.desired[p]) else {})
  {
    hide Unnamed;
    assert PathInv(env, s0, s, p);
  }

  /** A renamed account is added and removed at once.  Applied one by one the edits would end
      its membership; the batches leave it as it is. */
  lemma RenameConflicts(g: string, a: User, b: User, k: Memberships, fails: Request -> bool, sent: seq<Request>)
    requires a.id == b.id && a.username != b.username
    requires CompletionOrder(Batches(Edits(g, [a], [b])), fails, sent)
    ensures !NoConflict(Edits(g, [a], [b]))
    ensures (a.id, g) !in ApplyRaw(k, Edits(g, [a], [b]))
    ensures (a.id, g) in ApplyAll(k, sent, fails) <==> (a.id, g) in k
  {
    var edits := Edits(g, [a], [b]);
    assert a in NotNamed([a], Usernames([b])) && b in NotNamed([b], Usernames([a]));
    assert NotNamed([a], Usernames([b])) == [a] && NotNamed([b], Usernames([a])) == [b] by {
      assert [a][1..] == [] && [b][1..] == [];
    }
    assert edits == [Update(a.id, [g], []), Update(b.id, [], [g])];
    assert g in edits[0].add && g in edits[1].remove;
    assert Added(edits, (a.id, g)) && Removed(edits, (a.id, g));
    AppliedMeaning(k, edits, fails, sent, (a.id, g));
    assert edits[..|edits| - 1] == [Update(a.id, [g], [])];
    assert (a.id, g) in Pairs(b.id, edits[1].remove);
  }

  ghost predicate CacheMatches(env: Env, s0: Sync, k: Memberships) {
    forall p :: p in env.desired ==> MembersOf(k, GroupOf(env, s0, p).id) == Ids(Before(s0, p))
  }

  ghost predicate Reached(env: Env, s0: Sync, k: Memberships) {
    forall p :: p in env.desired ==> MembersOf(k, GroupOf(env, s0, p).id) == Ids(env.desired[p])
  }

  /** The members of one group after the recorded edits are applied. */
  lemma AppliedToGroup(updates: seq<Update>, k: Memberships, fails: Request -> bool, sent: seq<Request>, g: string, u: string)
    requires CompletionOrder(Batches(updates), fails, sent)
    ensures var (added, removed, deletion) := (u in AddedTo(updates, g), u in RemovedFrom(updates, g), Delete((u, g)));
      && (u in MembersOf(ApplyAll(k, sent, fails), g) <==>
           if added && !removed then (u, g) in k || !fails(Put((u, g)))
           else if removed && !added then (u, g) in k && !Succeeds(updates, fails, deletion)
           else (u, g) in k)
      && (InBatches(Batches(updates), Put((u, g))) <==> added && !removed)
      && (InBatches(Batches(updates), deletion) <==> removed && !added)
  {
    BatchMeaning(updates, (u, g));
    AppliedMeaning(k, updates, fails, sent, (u, g));
    IssuedMeaning(updates, fails, (u, g));
    AddedToMeaning(updates, (u, g));
  }

  /** The request is sent and does not fail. */
  ghost predicate Succeeds(updates: seq<Update>, fails: Request -> bool, r: Request) {
    Issued(Batches(updates), fails, r) && !fails(r)
  }

  /** The request would change something. */
  ghost predicate IsEffective(k: Memberships, r: Request) {
    match r
    case Put(p) => p !in k
    case Delete(p) => p in k
  }

  /** Every request of the batches that would change something succeeds. */
  ghost predicate ChangesSucceed(k: Memberships, updates: seq<Update>, fails: Request -> bool) {
    forall r :: InBatches(Batches(updates), r) && IsEffective(k, r) ==> Succeeds(updates, fails, r)
  }

  /** A group that Keycloak holds but the cache does not know cannot be created: its task fails
      the synchronisation, whatever the other tasks do. */
  lemma UnknownGroupFails(env: Env, s: Sync, path: string, order: seq<string>, f: Sync)
    requires path in env.desired && path in s.tasks && s.tasks[path].Begun?
    requires path !in s.groupsByPath && path in s.keycloakGroups && Runs(env, Step(env, s, path), order, f)
    ensures Step(env, s, path) == s.(failed := true) && f.failed && !Finished(f)
  {
    FailedStays(env, Step(env, s, path), order, f);
  }

  lemma {:induction false} FailedStays(env: Env, s: Sync, order: seq<string>, f: Sync)
    requires s.failed && Runs(env, s, order, f)
    ensures f.failed
    decreases |order|
  {
    if order != [] {
      FailedStays(env, Step(env, s, order[0]), order[1..], f);
    }
  }

  /** A task that is done has recorded the difference and brought the cache up to date. */
  lemma DoneMeaning(env: Env, s0: Sync, order: seq<string>, s: Sync, p: string)
    requires Usable(env, s0) && Runs(env, s0, order, s)
    requires p in env.desired && p in s.tasks && s.tasks[p].Done?
    ensures var g := GroupOf(env, s0, p);
      && p in s.groupsByPath && s.groupsByPath[p] == g
      && AddedTo(s.updates, g.id) == Unnamed(env.desired[p], Before(s0, p))
      && RemovedFrom(s.updates, g.id) == Unnamed(Before(s0, p), env.desired[p])
    ensures Cached(s, p) == CachedAfter(env.desired[p], Before(s0, p))
  {
    RunFromStart(env, s0, order, s);
    assert PathInv(env, s0, s, p);
  }

  lemma FinishedTasks(env: Env, s0: Sync, order: seq<string>, s: Sync)
    requires Usable(env, s0) && Runs(env, s0, order, s) && Finished(s)
    ensures forall p :: p in env.desired ==> p in s.tasks && s.tasks[p].Done?
    ensures forall g :: Foreign(env, s0, g) ==> AddedTo(s.updates, g) == RemovedFrom(s.updates, g) == {}
  {
    RunFromStart(env, s0, order, s);
  }

  lemma FinishedKnows(env: Env, s0: Sync, order: seq<string>, f: Sync)
    requires Usable(env, s0) && Runs(env, s0, order, f) && Finished(f)
    ensures f.groupsByPath.Keys == s0.groupsByPath.Keys + env.desired.Keys
    ensures forall p :: p in f.groupsByPath ==> f.groupsByPath[p] == GroupOf(env, s0, p)
  {
    hide Unnamed, CachedAfter;
    FinishedTasks(env, s0, order, f);
    RunFromStart(env, s0, order, f);
    forall p | p in env.desired ensures p in f.groupsByPath && f.groupsByPath[p] == GroupOf(env, s0, p) {
      DoneMeaning(env, s0, order, f, p);
    }
  }

  /** The usernames tell the accounts: an account that is wanted under cached names only is
      cached under wanted names only, and one that is cached under wanted names only is wanted. */
  ghost predicate NamesTellAccounts(want: seq<User>, had: seq<User>) {
    Ids(want) - Unnamed(want, had) <= Ids(had) - Unnamed(had, want) <= Ids(want)
  }

  /** Equal usernames have equal ids, and in one list an id has one username.  An account may be
      renamed in between. */
  ghost predicate Recognisable(want: seq<User>, had: seq<User>) {
    && (forall u, v :: u in want && v in had && u.username == v.username ==> u.id == v.id)
    && OneNameEach(want) && OneNameEach(had)
  }

  ghost predicate OneNameEach(users: seq<User>) {
    forall u, v :: u in users && v in users && u.id == v.id ==> u.username == v.username
  }

  lemma RecognisableNames(want: seq<User>, had: seq<User>)
    requires Recognisable(want, had)
    ensures NamesTellAccounts(want, had)
    ensures Unnamed(want, had) - Unnamed(had, want) == Ids(want) - Ids(had)
    ensures Unnamed(had, want) - Unnamed(want, had) == Ids(had) - Ids(want)
  {
    KeptAccounts(want, had);
    KeptAccounts(had, want);
  }

  /** An account of `a` is named in `b` and then has its id there, or it is unnamed. */
  lemma KeptAccounts(a: seq<User>, b: seq<User>)
    requires OneNameEach(a) && OneNameEach(b)
    requires forall u, v :: u in a && v in b && u.username == v.username ==> u.id == v.id
    ensures forall id :: id in Ids(a) && id !in Unnamed(a, b) ==> id in Ids(b) && id !in Unnamed(b, a)
    ensures Unnamed(a, b) <= Ids(a)
    ensures forall id :: id in Unnamed(a, b) && id in Ids(b) ==> id in Unnamed(b, a)
  {
    forall id | id in Ids(a) && id !in Unnamed(a, b) ensures id in Ids(b) && id !in Unnamed(b, a) {
      var u :| u in a && u.id == id;
      assert u.username in Usernames(b) || u in NotNamed(a, Usernames(b));
      var v :| v in b && v.username == u.username;
      assert v.id == id;
      assert forall x :: x in b && x.id == id ==> x.username == u.username && u.username in Usernames(a);
    }
    forall id | id in Unnamed(a, b) && id in Ids(b) ensures id in Unnamed(b, a) {
      var u :| u in NotNamed(a, Usernames(b)) && u.id == id;
      var v :| v in b && v.id == id;
      assert forall x :: x in a && x.username == v.username ==> x.username == u.username;
      assert v in NotNamed(b, Usernames(a));
    }
  }

  /** The members of one group in the end, when every change of it succeeds. */
  lemma GroupReachedIff(env: Env, s0: Sync, order: seq<string>, f: Sync, k: Memberships, fails: Request -> bool, sent: seq<Request>, p: string)
    requires Usable(env, s0) && Runs(env, s0, order, f) && Finished(f) && CacheMatches(env, s0, k)
    requires CompletionOrder(Batches(f.updates), fails, sent) && p in env.desired
    requires ChangesSucceed(k, f.updates, fails)
    ensures MembersOf(ApplyAll(k, sent, fails), GroupOf(env, s0, p).id) == Ids(env.desired[p]) <==>
      NamesTellAccounts(env.desired[p], Before(s0, p))
  {
    hide Usable, Runs, Finished, CompletionOrder, Unnamed, Batches, Issued, Before, GroupOf;
    var g, want, had := GroupOf(env, s0, p).id, env.desired[p], Before(s0, p);
    FinishedTasks(env, s0, order, f);
    DoneMeaning(env, s0, order, f, p);
    assert MembersOf(k, g) == Ids(had);
    forall u ensures u in MembersOf(ApplyAll(k, sent, fails), g) <==>
      if u in Unnamed(want, had) && u !in Unnamed(had, want) then true
      else if u in Unnamed(had, want) && u !in Unnamed(want, had) then false
      else u in Ids(had)
    {
      AppliedToGroup(f.updates, k, fails, sent, g, u);
      assert u in Ids(had) <==> (u, g) in k;
    }
    EndIsWanted(want, had, MembersOf(ApplyAll(k, sent, fails), g));
  }

  lemma EndIsWanted(want: seq<User>, had: seq<User>, end: set<string>)
    requires forall u :: u in end <==>
      if u in Unnamed(want, had) && u !in Unnamed(had, want) then true
      else if u in Unnamed(had, want) && u !in Unnamed(want, had) then false
      else u in Ids(had)
    ensures end == Ids(want) <==> NamesTellAccounts(want, had)
  {
    UnnamedHere(want, had);
    EndIsWantedSets(Ids(want), Ids(had), Unnamed(want, had), Unnamed(had, want), end);
  }

  lemma EndIsWantedSets(want: set<string>, had: set<string>, adds: set<string>, removes: set<string>, end: set<string>)
    requires adds <= want && removes <= had
    requires forall u :: u in end <==>
      if u in adds && u !in removes then true else if u in removes && u !in adds then false else u in had
    ensures end == want <==> want - adds <= had - removes <= want
  {
    if end == want {
      forall u | u in want - adds ensures u in had - removes {
        assert u in end;
      }
      forall u | u in had - removes ensures u in want {
        assert u in end;
      }
    }
    if want - adds <= had - removes <= want {
      forall u ensures u in end <==> u in want {
        assert u in want - adds ==> u in had - removes;
        assert u in had - removes ==> u in want;
      }
    }
  }

  /** In every interleaving and every completion order: when the cached memberships matched
      Keycloak at the start and every change succeeds, a finished synchronisation has given
      every LDAP group exactly its resolved members if and only if in every group the usernames
      tell the accounts. */
  lemma ReachedIffNamesTellAccounts(env: Env, s0: Sync, order: seq<string>, f: Sync, k: Memberships, fails: Request -> bool, sent: seq<Request>)
    requires Usable(env, s0) && Runs(env, s0, order, f) && Finished(f) && CacheMatches(env, s0, k)
    requires CompletionOrder(Batches(f.updates), fails, sent) && ChangesSucceed(k, f.updates, fails)
    ensures Reached(env, s0, ApplyAll(k, sent, fails)) <==>
      forall p :: p in env.desired ==> NamesTellAccounts(env.desired[p], Before(s0, p))
  {
    hide Usable, Runs, CompletionOrder, ChangesSucceed, NamesTellAccounts, Unnamed;
    forall p | p in env.desired
      ensures MembersOf(ApplyAll(k, sent, fails), GroupOf(env, s0, p).id) == Ids(env.desired[p]) <==>
        NamesTellAccounts(env.desired[p], Before(s0, p))
    {
      GroupReachedIff(env, s0, order, f, k, fails, sent, p);
    }
  }

  /** An account that was deleted and made anew under its old username has a new id; the
      comparison sees no difference, and it is not added. */
  lemma RecreatedAccountIsMissed(g: string, a: User, b: User)
    requires a.username == b.username && a.id != b.id
    ensures Edits(g, [a], [b]) == [] && !NamesTellAccounts([a], [b])
  {
    assert Usernames([a]) == {a.username} == Usernames([b]);
    NoEditsIffSame(g, [a], [b]);
    NobodyUnnamedIffSame([a], [b]);
    assert a in [a] && a.id in Ids([a]) - Unnamed([a], [b]);
    assert Ids([b]) == {b.id};
  }

  /** A change that does not succeed leaves its group wrong. */
  lemma FailureMisses(env: Env, s0: Sync, order: seq<string>, f: Sync, k: Memberships, fails: Request -> bool, sent: seq<Request>, r: Request)
    requires Usable(env, s0) && Runs(env, s0, order, f) && Finished(f)
    requires forall p :: p in env.desired ==> NamesTellAccounts(env.desired[p], Before(s0, p))
    requires CompletionOrder(Batches(f.updates), fails, sent)
    requires InBatches(Batches(f.updates), r) && IsEffective(k, r) && !Succeeds(f.updates, fails, r)
    ensures !Reached(env, s0, ApplyAll(k, sent, fails))
  {
    hide Usable, Runs, CompletionOrder, Unnamed, Batches, GroupOf, Before;
    var (u, g) := r.pair;
    FinishedTasks(env, s0, order, f);
    AppliedToGroup(f.updates, k, fails, sent, g, u);
    assert !Foreign(env, s0, g);
    var p :| p in env.desired && GroupOf(env, s0, p).id == g;
    DoneMeaning(env, s0, order, f, p);
    var want, had := env.desired[p], Before(s0, p);
    UnnamedHere(want, had);
    assert NamesTellAccounts(want, had);
    assert r.Delete? ==> u !in Unnamed(want, had) && u in Unnamed(had, want);
    assert u in Ids(want) ==> u in Unnamed(want, had) || u in Ids(had) - Unnamed(had, want);
  }

  lemma UnnamedHere(a: seq<User>, b: seq<User>)
    ensures Unnamed(a, b) <= Ids(a) && Unnamed(b, a) <= Ids(b)
  {
  }

  /** Where the usernames tell the accounts: every group is reached if and only if every change
      succeeds.  The cache holds what it should either way, and no other group has changed. */
  lemma ConvergesIffChangesSucceed(env: Env, s0: Sync, order: seq<string>, f: Sync, k: Memberships, fails: Request -> bool, sent: seq<Request>)
    requires Usable(env, s0) && Runs(env, s0, order, f) && Finished(f) && CacheMatches(env, s0, k)
    requires CompletionOrder(Batches(f.updates), fails, sent)
    requires forall p :: p in env.desired ==> NamesTellAccounts(env.desired[p], Before(s0, p))
    ensures Reached(env, s0, ApplyAll(k, sent, fails)) <==> ChangesSucceed(k, f.updates, fails)
    ensures forall p :: p in env.desired ==>
      p in f.groupsByPath && f.groupsByPath[p] == GroupOf(env, s0, p) && Cached(f, p) == CachedAfter(env.desired[p], Before(s0, p))
    ensures forall g :: Foreign(env, s0, g) ==> MembersOf(ApplyAll(k, sent, fails), g) == MembersOf(k, g)
  {
    hide Usable, Runs, CompletionOrder, NamesTellAccounts, Unnamed, Before, CachedAfter, Batches;
    FinishedTasks(env, s0, order, f);
    if ChangesSucceed(k, f.updates, fails) {
      ReachedIffNamesTellAccounts(env, s0, order, f, k, fails, sent);
    } else {
      var r :| InBatches(Batches(f.updates), r) && IsEffective(k, r) && !Succeeds(f.updates, fails, r);
      FailureMisses(env, s0, order, f, k, fails, sent, r);
    }
    forall p | p in env.desired
      ensures p in f.groupsByPath && f.groupsByPath[p] == GroupOf(env, s0, p)
      ensures Cached(f, p) == CachedAfter(env.desired[p], Before(s0, p))
    {
      DoneMeaning(env, s0, order, f, p);
    }
    forall g | Foreign(env, s0, g)
      ensures MembersOf(ApplyAll(k, sent, fails), g) == MembersOf(k, g)
    {
      forall u ensures u in MembersOf(ApplyAll(k, sent, fails), g) <==> u in MembersOf(k, g) {
        AppliedToGroup(f.updates, k, fails, sent, g, u);
      }
    }
  }

  /** When equal usernames have equal ids, accounts renamed or not, every request is a change:
      every group is reached if and only if no request of the batches fails. */
  lemma ConvergesIffNoRequestFails(env: Env, s0: Sync, order: seq<string>, f: Sync, k: Memberships, fails: Request -> bool, sent: seq<Request>)
    requires Usable(env, s0) && Runs(env, s0, order, f) && Finished(f) && CacheMatches(env, s0, k)
    requires CompletionOrder(Batches(f.updates), fails, sent)
    requires forall p :: p in env.desired ==> Recognisable(env.desired[p], Before(s0, p))
    ensures Reached(env, s0, ApplyAll(k, sent, fails)) <==> forall r :: InBatches(Batches(f.updates), r) ==> !fails(r)
  {
    hide Usable, Runs, CompletionOrder, Recognisable, NamesTellAccounts, Before, Batches, IsEffective;
    forall p | p in env.desired ensures NamesTellAccounts(env.desired[p], Before(s0, p)) {
      RecognisableNames(env.desired[p], Before(s0, p));
    }
    forall r | InBatches(Batches(f.updates), r) ensures IsEffective(k, r) {
      RequestsAreChanges(env, s0, order, f, k, r);
    }
    ConvergesIffChangesSucceed(env, s0, order, f, k, fails, sent);
  }

  lemma RequestsAreChanges(env: Env, s0: Sync, order: seq<string>, f: Sync, k: Memberships, r: Request)
    requires Usable(env, s0) && Runs(env, s0, order, f) && Finished(f) && CacheMatches(env, s0, k)
    requires forall p :: p in env.desired ==> Recognisable(env.desired[p], Before(s0, p))
    requires InBatches(Batches(f.updates), r)
    ensures IsEffective(k, r)
  {
    hide Usable, Runs, Recognisable, Before, Unnamed, GroupOf, Batches;
    var (u, g) := r.pair;
    assert r == if r.Put? then Put((u, g)) else Delete((u, g));
    BatchMeaning(f.updates, (u, g));
    AddedToMeaning(f.updates, (u, g));
    FinishedTasks(env, s0, order, f);
    assert !Foreign(env, s0, g);
    var p :| p in env.desired && GroupOf(env, s0, p).id == g;
    DoneMeaning(env, s0, order, f, p);
    RecognisableNames(env.desired[p], Before(s0, p));
    var want, had := env.desired[p], Before(s0, p);
    assert MembersOf(k, g) == Ids(had);
    assert u in MembersOf(k, g) <==> (u, g) in k;
    if r.Put? {
      assert u in Unnamed(want, had) - Unnamed(had, want);
    } else {
      assert u in Unnamed(had, want) - Unnamed(want, had);
    }
  }

  /** ---- the next synchronisation ---- */

  /** The cache of a known group already names the resolved members. */
  ghost predicate UpToDate(env: Env, s: Sync, p: string)
    requires p in env.desired
  {
    p in s.groupsByPath && Usernames(Cached(s, p)) == Usernames(env.desired[p])
  }

  ghost predicate Quiet(env: Env, s: Sync) {
    && s.updates == [] && s.tasks.Keys == env.desired.Keys
    && (forall p :: p in env.desired ==> UpToDate(env, s, p))
    && (forall p :: p in env.desired ==> !s.tasks[p].Writing?)
  }

  lemma {:induction false} QuietRun(env: Env, s: Sync, order: seq<string>, f: Sync)
    requires Quiet(env, s) && Runs(env, s, order, f)
    ensures f.updates == [] && f.memberCache == s.memberCache && f.groupsByPath == s.groupsByPath
    ensures f.keycloakGroups == s.keycloakGroups && f.failed == s.failed
    decreases |order|
  {
    hide Edits, SanitizeMembers;
    if order != [] {
      var p := order[0];
      if s.tasks[p].Ensured? {
        NoEditsIffSame(s.tasks[p].group.id, env.desired[p], Cached(s, p));
      }
      QuietRun(env, Step(env, s, p), order[1..], f);
    }
  }

  /** The state in which a second synchronisation begins. */
  ghost predicate Follows(env2: Env, s1: Sync, f: Sync) {
    Initial(env2, s1) && s1.groupsByPath == f.groupsByPath && s1.memberCache == f.memberCache
  }

  /** Every LDAP group resolves in the second synchronisation to the usernames that the first one
      has left in the cache. */
  ghost predicate NamesAsCached(env: Env, s0: Sync, env2: Env) {
    env2.desired.Keys == env.desired.Keys &&
    forall p :: p in env.desired ==> Usernames(env2.desired[p]) == Usernames(CachedAfter(env.desired[p], Before(s0, p)))
  }

  /** Every LDAP group resolves to the same usernames in both synchronisations. */
  ghost predicate SameNames(env: Env, env2: Env) {
    env2.desired.Keys == env.desired.Keys &&
    forall p :: p in env.desired ==> Usernames(env2.desired[p]) == Usernames(env.desired[p])
  }

  ghost predicate NothingBlank(env: Env) {
    forall p :: p in env.desired ==> AllValid(env.desired[p])
  }

  /** After a finished synchronisation, a second finished one over the same LDAP groups records
      no edit if and only if every group resolves to the usernames left in the cache: to those of
      the first synchronisation, unless some of them were blank.  It then changes no cache and
      creates no group either. */
  lemma SecondSyncIsQuietIff(env: Env, s0: Sync, order: seq<string>, f: Sync, env2: Env, s1: Sync, order2: seq<string>, f2: Sync)
    requires Usable(env, s0) && Runs(env, s0, order, f) && Finished(f)
    requires env2.desired.Keys == env.desired.Keys && Usable(env2, s1) && Follows(env2, s1, f)
    requires Runs(env2, s1, order2, f2) && Finished(f2)
    ensures f2.updates == [] <==> NamesAsCached(env, s0, env2)
    ensures NothingBlank(env) ==> (NamesAsCached(env, s0, env2) <==> SameNames(env, env2))
    ensures f2.updates == [] ==>
      f2.memberCache == f.memberCache && f2.groupsByPath == f.groupsByPath && f2.keycloakGroups == s1.keycloakGroups
  {
    hide Usable, Runs, Follows, CachedAfter;
    if NamesAsCached(env, s0, env2) {
      NamesAsCachedAreQuiet(env, s0, order, f, env2, s1, order2, f2);
    }
    if f2.updates == [] {
      QuietMeansNamesAsCached(env, s0, order, f, env2, s1, order2, f2);
      NamesAsCachedAreQuiet(env, s0, order, f, env2, s1, order2, f2);
    }
    if NothingBlank(env) {
      NothingBlankIsCached(env, s0, env2);
    }
  }

  lemma NothingBlankIsCached(env: Env, s0: Sync, env2: Env)
    requires NothingBlank(env)
    ensures NamesAsCached(env, s0, env2) <==> SameNames(env, env2)
  {
    hide CachedAfter, Before;
    forall p | p in env.desired ensures Usernames(CachedAfter(env.desired[p], Before(s0, p))) == Usernames(env.desired[p]) {
      CachedAfterNames(env.desired[p], Before(s0, p));
    }
  }

  lemma NamesAsCachedAreQuiet(env: Env, s0: Sync, order: seq<string>, f: Sync, env2: Env, s1: Sync, order2: seq<string>, f2: Sync)
    requires Usable(env, s0) && Runs(env, s0, order, f) && Finished(f)
    requires Follows(env2, s1, f) && NamesAsCached(env, s0, env2) && Runs(env2, s1, order2, f2)
    ensures f2.updates == [] && f2.memberCache == f.memberCache && f2.groupsByPath == f.groupsByPath
    ensures f2.keycloakGroups == s1.keycloakGroups && !f2.failed
  {
    hide SliceInv, PathInv, Runs, CachedAfter;
    FinishedTasks(env, s0, order, f);
    forall p | p in env2.desired ensures UpToDate(env2, s1, p) {
      DoneMeaning(env, s0, order, f, p);
      assert Cached(s1, p) == Cached(f, p);
    }
    QuietRun(env2, s1, order2, f2);
  }

  lemma QuietMeansNamesAsCached(env: Env, s0: Sync, order: seq<string>, f: Sync, env2: Env, s1: Sync, order2: seq<string>, f2: Sync)
    requires Usable(env, s0) && Runs(env, s0, order, f) && Finished(f)
    requires env2.desired.Keys == env.desired.Keys && Usable(env2, s1) && Follows(env2, s1, f)
    requires Runs(env2, s1, order2, f2) && Finished(f2) && f2.updates == []
    ensures NamesAsCached(env, s0, env2)
  {
    hide Usable, Runs, Follows, AddedTo, RemovedFrom, Cached, CachedAfter, Unnamed, Before;
    FinishedTasks(env, s0, order, f);
    FinishedTasks(env2, s1, order2, f2);
    forall p | p in env.desired
      ensures Usernames(env2.desired[p]) == Usernames(CachedAfter(env.desired[p], Before(s0, p)))
    {
      DoneMeaning(env, s0, order, f, p);
      DoneMeaning(env2, s1, order2, f2, p);
      BeforeIsCached(env2, s1, f, p);
      NoUpdates(f2.updates, GroupOf(env2, s1, p).id);
      NobodyUnnamedIffSame(env2.desired[p], Before(s1, p));
    }
  }

  lemma NoUpdates(updates: seq<Update>, g: string)
    requires updates == []
    ensures AddedTo(updates, g) == {} == RemovedFrom(updates, g)
  {
  }

  lemma BeforeIsCached(env2: Env, s1: Sync, f: Sync, p: string)
    requires Follows(env2, s1, f) && p in f.groupsByPath
    ensures Before(s1, p) == Cached(f, p)
  {
  }

  /** For paired ids and usernames it is the same whether the accounts agree or the usernames. */
  lemma SameIdsIffSameNames(a: seq<User>, b: seq<User>)
    requires Paired(a, b)
    ensures Ids(a) == Ids(b) <==> Usernames(a) == Usernames(b)
  {
    PairedNames(a, b);
    PairedNames(b, a);
  }

  lemma PairedNames(a: seq<User>, b: seq<User>)
    requires Paired(a, b) || Paired(b, a)
    ensures Ids(a) <= Ids(b) <==> Usernames(a) <= Usernames(b)
  {
    if Ids(a) <= Ids(b) {
      forall n | n in Usernames(a) ensures n in Usernames(b) {
        var u :| u in a && u.username == n;
        assert u.id in Ids(b);
        var v :| v in b && v.id == u.id;
        assert u in a + b && v in a + b && u in b + a && v in b + a;
      }
    }
    if Usernames(a) <= Usernames(b) {
      forall id | id in Ids(a) ensures id in Ids(b) {
        var u :| u in a && u.id == id;
        assert u.username in Usernames(b);
        var v :| v in b && v.username == u.username;
        assert u in a + b && v in a + b && u in b + a && v in b + a;
      }
    }
  }

  /** In particular, after a finished synchronisation, a second one that resolves the same
      members records no edit, changes no cache and creates no group, in every interleaving of
      both, finished or not. */
  lemma SecondSyncChangesNothing(env: Env, s0: Sync, order: seq<string>, f: Sync, s1: Sync, order2: seq<string>, f2: Sync)
    requires Usable(env, s0) && Runs(env, s0, order, f) && Finished(f)
    requires NothingBlank(env) && Follows(env, s1, f) && Runs(env, s1, order2, f2)
    ensures f2.updates == [] && f2.memberCache == f.memberCache && f2.groupsByPath == f.groupsByPath
    ensures f2.keycloakGroups == s1.keycloakGroups && !f2.failed
  {
    NothingBlankIsCached(env, s0, env);
    NamesAsCachedAreQuiet(env, s0, order, f, env, s1, order2, f2);
  }

  /** A group whose cache is up to date is left alone in Keycloak, whatever Keycloak really
      holds for it: differences are computed against the cache only. */
  lemma UpToDateGroupIsLeftAlone(env: Env, s1: Sync, order: seq<string>, f: Sync, p: string, k: Memberships, fails: Request -> bool, sent: seq<Request>)
    requires Usable(env, s1) && Runs(env, s1, order, f)
    requires p in env.desired && UpToDate(env, s1, p)
    requires CompletionOrder(Batches(f.updates), fails, sent)
    ensures MembersOf(ApplyAll(k, sent, fails), s1.groupsByPath[p].id) == MembersOf(k, s1.groupsByPath[p].id)
  {
    hide Usable, Runs, CompletionOrder, Unnamed;
    var g := s1.groupsByPath[p].id;
    RunFromStart(env, s1, order, f);
    NobodyUnnamedIffSame(env.desired[p], Before(s1, p));
    ComparedPath(env, s1, f, p);
    forall u ensures u in MembersOf(ApplyAll(k, sent, fails), g) <==> u in MembersOf(k, g) {
      AppliedToGroup(f.updates, k, fails, sent, g, u);
    }
  }

  /** So a failure is never repaired.  A task writes its cache before any edit is applied:
      when the synchronisation then stops early, because another task threw or a request
      failed, the next one on unchanged directories leaves the group as wrong as it was. */
  lemma LostEditsAreNotRepaired(env: Env, s0: Sync, order: seq<string>, s: Sync, p: string, k: Memberships,
                                env1: Env, s1: Sync, order1: seq<string>, f1: Sync, fails: Request -> bool, sent: seq<Request>)
    requires Usable(env, s0) && Runs(env, s0, order, s) && p in s.tasks && s.tasks[p].Done?
    requires p in env.desired && AllValid(env.desired[p]) && MembersOf(k, GroupOf(env, s0, p).id) != Ids(env.desired[p])
    requires Usable(env1, s1) && Runs(env1, s1, order1, f1)
    requires s1.groupsByPath == s.groupsByPath && s1.memberCache == s.memberCache
    requires p in env1.desired && env1.desired[p] == env.desired[p]
    requires CompletionOrder(Batches(f1.updates), fails, sent)
    ensures MembersOf(ApplyAll(k, sent, fails), GroupOf(env, s0, p).id) != Ids(env.desired[p])
  {
    DoneMeaning(env, s0, order, s, p);
    CachedAfterNames(env.desired[p], Before(s0, p));
    assert Cached(s1, p) == Cached(s, p);
    UpToDateGroupIsLeftAlone(env1, s1, order1, f1, p, k, fails, sent);
  }

  /** ---- every synchronisation can finish ---- */

  /** No creation meets a path that Keycloak holds and the cache does not know. */
  ghost predicate Ready(env: Env, s: Sync) {
    && s.tasks.Keys == env.desired.Keys && !s.failed
    && forall p :: p in s.tasks && s.tasks[p].Begun? ==> p in s.groupsByPath || p !in s.keycloakGroups
  }

  function TaskRank(t: Task): nat {
    match t
    case Begun => 3
    case Ensured(_) => 2
    case Writing(_) => 1
    case Done => 0
  }

  lemma StepReady(env: Env, s: Sync, p: string)
    requires Ready(env, s) && p in s.tasks && !s.tasks[p].Done?
    ensures var t := Step(env, s, p);
      && Ready(env, t) && TaskRank(t.tasks[p]) < TaskRank(s.tasks[p])
      && forall q :: q in s.tasks && q != p ==> t.tasks[q] == s.tasks[q]
  {
    hide Edits, SanitizeMembers;
  }

  lemma {:induction false} FinishPath(env: Env, s: Sync, p: string) returns (order: seq<string>, f: Sync)
    requires Ready(env, s) && p in s.tasks
    ensures Runs(env, s, order, f) && Ready(env, f) && f.tasks[p].Done?
    ensures forall q :: q in s.tasks && q != p ==> f.tasks[q] == s.tasks[q]
    decreases TaskRank(s.tasks[p])
  {
    hide Step;
    if s.tasks[p].Done? {
      order, f := [], s;
    } else {
      StepReady(env, s, p);
      var rest;
      rest, f := FinishPath(env, Step(env, s, p), p);
      order := [p] + rest;
      assert order[1..] == rest;
    }
  }

  lemma {:induction false} RunsConcat(env: Env, s: Sync, a: seq<string>, mid: Sync, b: seq<string>, f: Sync)
    requires Runs(env, s, a, mid) && Runs(env, mid, b, f)
    ensures Runs(env, s, a + b, f)
    decreases |a|
  {
    if a == [] {
      assert a + b == b;
    } else {
      assert (a + b)[1..] == a[1..] + b;
      RunsConcat(env, Step(env, s, a[0]), a[1..], mid, b, f);
    }
  }

  lemma {:induction false} FinishPaths(env: Env, s: Sync, todo: set<string>) returns (order: seq<string>, f: Sync)
    requires Ready(env, s) && todo <= s.tasks.Keys && forall p :: p in s.tasks && p !in todo ==> s.tasks[p].Done?
    ensures Runs(env, s, order, f) && Ready(env, f) && Finished(f)
    decreases todo
  {
    if todo == {} {
      order, f := [], s;
    } else {
      var p :| p in todo;
      var a, mid := FinishPath(env, s, p);
      var b;
      b, f := FinishPaths(env, mid, todo - {p});
      RunsConcat(env, s, a, mid, b, f);
      order := a + b;
    }
  }

  lemma EverySyncCanFinish(env: Env, s: Sync) returns (order: seq<string>, f: Sync)
    requires Ready(env, s)
    ensures Runs(env, s, order, f) && Finished(f) && f.tasks.Keys == env.desired.Keys
  {
    order, f := FinishPaths(env, s, s.tasks.Keys);
  }

  /** ---- stale groups ---- */

  /** Known paths that LDAP does not have, admin groups excepted. */
  function StalePaths(s: Sync, adminNames: set<string>): set<string> {
    set p | p in s.groupsByPath && p !in s.tasks && s.groupsByPath[p].name !in adminNames
  }

  /** The group at `q` is the one at `p` or is somewhere below it. */
  predicate IsAtOrBelow(q: string, p: string) {
    q == p || p + "/" <= q
  }

  predicate HasId(groups: map<string, Group>, id: string) {
    exists p :: p in groups && groups[p].id == id
  }

  /** Keycloak deletes a group by its id, with everything below it. */
  function RemoveGroup(groups: map<string, Group>, id: string): map<string, Group> {
    map q | q in groups && !(exists p :: p in groups && groups[p].id == id && IsAtOrBelow(q, p)) :: groups[q]
  }

  /** One deletion; it fails for the paths in `refused`, and for a group that is gone already. */
  function DeleteOne(s: Sync, path: string, refused: set<string>): (Sync, bool)
    requires path in s.groupsByPath
  {
    var id := s.groupsByPath[path].id;
    if path in refused || !HasId(s.keycloakGroups, id) then (s, false)
    else (s.(keycloakGroups := RemoveGroup(s.keycloakGroups, id), memberCache := s.memberCache - {path}), true)
  }

  /** Deletions that complete in this order, and whether all of them succeed. */
  function DeleteInOrder(s: Sync, order: seq<string>, refused: set<string>): (Sync, bool)
    requires forall p :: p in order ==> p in s.groupsByPath
    decreases |order|
  {
    if order == [] then (s, true)
    else
      var (front, last) := (order[..|order| - 1], order[|order| - 1]);
      var (t, ok) := DeleteInOrder(s, front, refused);
      if last !in t.groupsByPath then (t, false)
      else
        var (u, lastOk) := DeleteOne(t, last, refused);
        (u, ok && lastOk)
  }

  /** Known groups have in Keycloak their path and no other group has their id. */
  ghost predicate Agrees(s: Sync) {
    forall q, r :: q in s.groupsByPath && r in s.keycloakGroups ==> (s.keycloakGroups[r].id == s.groupsByPath[q].id <==> r == q)
  }

  lemma OneDeletion(s: Sync, path: string, refused: set<string>)
    requires Agrees(s) && path in s.groupsByPath
    ensures var (t, ok) := DeleteOne(s, path, refused);
      && t.groupsByPath == s.groupsByPath && t.tasks == s.tasks && Agrees(t)
      && (ok <==> path !in refused && path in s.keycloakGroups)
      && (forall q :: q in t.keycloakGroups <==> q in s.keycloakGroups && !(ok && IsAtOrBelow(q, path)))
      && t.memberCache == if ok then s.memberCache - {path} else s.memberCache
  {
    var id := s.groupsByPath[path].id;
    assert HasId(s.keycloakGroups, id) <==> path in s.keycloakGroups;
    if path in s.keycloakGroups {
      forall q | q in s.keycloakGroups ensures q in RemoveGroup(s.keycloakGroups, id) <==> !IsAtOrBelow(q, path) {
        assert s.keycloakGroups[path].id == id;
      }
    }
  }

  lemma BelowIsTransitive(a: string, b: string, c: string)
    requires IsAtOrBelow(a, b) && IsAtOrBelow(b, c)
    ensures IsAtOrBelow(a, c)
  {
    if a != b && b != c {
      assert c + "/" <= b <= b + "/" <= a;
    }
  }

  /** Some deletion of the list that Keycloak does not refuse is of this group or of one above. */
  ghost predicate GoesWith(order: seq<string>, refused: set<string>, q: string) {
    exists i :: 0 <= i < |order| && order[i] !in refused && IsAtOrBelow(q, order[i])
  }

  /** Each deletion finds its group: none is refused, and none comes after one of the same group
      or of a group above it. */
  ghost predicate EachFindsItsGroup(order: seq<string>, refused: set<string>) {
    forall i :: 0 <= i < |order| ==> order[i] !in refused && !GoesWith(order[..i], refused, order[i])
  }

  /** Exactly the groups that are deleted and those below them are gone. */
  ghost predicate IsSwept(s: Sync, order: seq<string>, refused: set<string>, t: Sync) {
    && t.groupsByPath == s.groupsByPath && t.tasks == s.tasks && Agrees(t)
    && (forall q :: q in t.keycloakGroups <==> q in s.keycloakGroups && !GoesWith(order, refused, q))
    && (forall p :: p !in order ==> Cached(t, p) == Cached(s, p))
  }

  /** In whatever order the deletions complete and whichever are refused. */
  lemma {:induction false} DeletedGroups(s: Sync, order: seq<string>, refused: set<string>)
    requires Agrees(s) && forall p :: p in order ==> p in s.groupsByPath && p in s.keycloakGroups
    ensures IsSwept(s, order, refused, DeleteInOrder(s, order, refused).0)
    ensures DeleteInOrder(s, order, refused).1 <==> EachFindsItsGroup(order, refused)
    decreases |order|
  {
    hide Agrees, DeleteOne, IsAtOrBelow, EachFindsItsGroup;
    if order != [] {
      var front, last := order[..|order| - 1], order[|order| - 1];
      assert order == front + [last];
      DeletedGroups(s, front, refused);
      SweptOneMore(s, front, last, refused, DeleteInOrder(s, front, refused).0);
      FindsOneMore(front, last, refused);
    } else {
      NothingToFind(refused);
    }
  }

  lemma NothingToFind(refused: set<string>)
    ensures EachFindsItsGroup([], refused)
  {
  }

  lemma FindsOneMore(front: seq<string>, last: string, refused: set<string>)
    ensures EachFindsItsGroup(front + [last], refused) <==>
      EachFindsItsGroup(front, refused) && last !in refused && !GoesWith(front, refused, last)
  {
    hide GoesWith;
    var order := front + [last];
    assert forall i :: 0 <= i < |front| ==> order[..i] == front[..i] && order[i] == front[i];
    assert order[..|front|] == front && order[|front|] == last;
  }

  lemma SweptOneMore(s: Sync, front: seq<string>, last: string, refused: set<string>, t: Sync)
    requires IsSwept(s, front, refused, t) && last in s.groupsByPath && last in s.keycloakGroups
    ensures var (u, ok) := DeleteOne(t, last, refused);
      IsSwept(s, front + [last], refused, u) && (ok <==> last !in refused && !GoesWith(front, refused, last))
  {
    hide Agrees, DeleteOne, IsAtOrBelow, GoesWith;
    var (u, ok) := DeleteOne(t, last, refused);
    OneDeletion(t, last, refused);
    forall q ensures q in u.keycloakGroups <==> q in s.keycloakGroups && !GoesWith(front + [last], refused, q) {
      GoesWithLast(front, last, refused, q);
      if GoesWith(front, refused, last) && IsAtOrBelow(q, last) {
        GoesWithAbove(front, refused, q, last);
      }
    }
    forall p | p !in front + [last] ensures Cached(u, p) == Cached(s, p) {
      assert last in front + [last] && p !in front;
    }
  }

  lemma GoesWithLast(front: seq<string>, last: string, refused: set<string>, q: string)
    ensures GoesWith(front + [last], refused, q) <==> GoesWith(front, refused, q) || (last !in refused && IsAtOrBelow(q, last))
  {
    var order := front + [last];
    if GoesWith(front, refused, q) {
      var i :| 0 <= i < |front| && front[i] !in refused && IsAtOrBelow(q, front[i]);
      assert order[i] == front[i];
    }
    if last !in refused && IsAtOrBelow(q, last) {
      assert order[|front|] == last;
    }
  }

  lemma GoesWithAbove(order: seq<string>, refused: set<string>, q: string, p: string)
    requires GoesWith(order, refused, p) && IsAtOrBelow(q, p)
    ensures GoesWith(order, refused, q)
  {
    var i :| 0 <= i < |order| && order[i] !in refused && IsAtOrBelow(p, order[i]);
    BelowIsTransitive(q, p, order[i]);
  }

  /** Longer paths first, each once, as the code starts its deletions. */
  ghost predicate LongestFirst(order: seq<string>) {
    forall i, j :: 0 <= i < j < |order| ==> |order[j]| <= |order[i]| && order[j] != order[i]
  }

  /** That is what the order by length is for: no deletion comes after one of a group above, so
      all succeed unless Keycloak refuses one. */
  lemma LongestFirstFindsAll(order: seq<string>, refused: set<string>)
    requires LongestFirst(order)
    ensures EachFindsItsGroup(order, refused) <==> forall p :: p in order ==> p !in refused
  {
    forall i, j | 0 <= i < j < |order| ensures !IsAtOrBelow(order[j], order[i]) {
      assert |order[j]| < |order[i] + "/"|;
    }
    forall j | 0 <= j < |order| ensures !GoesWith(order[..j], refused, order[j]) {
    }
  }

  /** Completed the other way round, a parent takes its child along and the child's own deletion
      fails. */
  lemma ParentFirstFails()
    ensures !EachFindsItsGroup(["/x", "/x/y"], {})
  {
    var order := ["/x", "/x/y"];
    assert order[..1][0] == "/x" && IsAtOrBelow("/x/y", "/x");
    assert GoesWith(order[..1], {}, order[1]);
  }

  /** What holds at the start: Keycloak has every group the cache knows, ids are distinct, and
      a group that Keycloak creates gets an id of its own. */
  ghost predicate KnownExist(env: Env, s: Sync) {
    && (forall q :: q in s.groupsByPath ==> q in s.keycloakGroups && s.keycloakGroups[q] == s.groupsByPath[q])
    && (forall q, r :: q in s.keycloakGroups && r in s.keycloakGroups && s.keycloakGroups[q].id == s.keycloakGroups[r].id ==> q == r)
    && (forall p, q :: q in s.keycloakGroups && q != p ==> s.keycloakGroups[q].id != env.created(p).id)
    && (forall p, q :: env.created(p).id == env.created(q).id ==> p == q)
  }

  /** What the stretches have done at one path: nothing, or its task has created the group. */
  ghost predicate OnlyCreatedAt(env: Env, s0: Sync, s: Sync, q: string) {
    && (q in s.keycloakGroups <==> q in s0.keycloakGroups || (q in s.groupsByPath && q !in s0.groupsByPath))
    && (q in s0.keycloakGroups ==> q in s.keycloakGroups && s.keycloakGroups[q] == s0.keycloakGroups[q])
    && (q in s0.groupsByPath ==> q in s.groupsByPath && s.groupsByPath[q] == s0.groupsByPath[q])
    && (q in s.groupsByPath && q !in s0.groupsByPath ==>
         q in s.tasks && q !in s0.keycloakGroups && s.groupsByPath[q] == env.created(q) &&
         q in s.keycloakGroups && s.keycloakGroups[q] == env.created(q))
    && (q in s.tasks && !s.tasks[q].Begun? ==> q in s.groupsByPath)
  }

  ghost predicate OnlyCreated(env: Env, s0: Sync, s: Sync) {
    s.tasks.Keys == s0.tasks.Keys && forall q :: OnlyCreatedAt(env, s0, s, q)
  }

  lemma StepOnlyCreatesAt(env: Env, s0: Sync, s: Sync, p: string, q: string)
    requires OnlyCreatedAt(env, s0, s, q) && OnlyCreatedAt(env, s0, s, p) && p in env.desired && p in s.tasks
    ensures OnlyCreatedAt(env, s0, Step(env, s, p), q)
  {
    hide Edits, NotNamed, AddEdits, RemoveEdits, SanitizeMembers;
  }

  lemma StepOnlyCreates(env: Env, s0: Sync, s: Sync, p: string)
    requires OnlyCreated(env, s0, s) && p in env.desired && p in s.tasks
    ensures OnlyCreated(env, s0, Step(env, s, p))
  {
    hide OnlyCreatedAt, Step;
    StepKeepsGroups(env, s, p);
    forall q ensures OnlyCreatedAt(env, s0, Step(env, s, p), q) {
      StepOnlyCreatesAt(env, s0, s, p, q);
    }
  }

  lemma {:induction false} RunOnlyCreates(env: Env, s0: Sync, s: Sync, order: seq<string>, f: Sync)
    requires OnlyCreated(env, s0, s) && Runs(env, s, order, f)
    ensures OnlyCreated(env, s0, f)
    decreases |order|
  {
    if order != [] {
      StepOnlyCreates(env, s0, s, order[0]);
      RunOnlyCreates(env, s0, Step(env, s, order[0]), order[1..], f);
    }
  }

  ghost predicate NothingBegun(env: Env, s0: Sync) {
    s0.tasks.Keys == env.desired.Keys && forall p :: p in s0.tasks ==> s0.tasks[p].Begun?
  }

  /** A known group that LDAP does not have and whose name is no admin group's. */
  ghost predicate IsStale(env: Env, s0: Sync, adminNames: set<string>, p: string) {
    p in s0.groupsByPath && p !in env.desired && s0.groupsByPath[p].name !in adminNames
  }

  /** The group or one above it is stale, and its deletion is not refused. */
  ghost predicate IsSweptAway(env: Env, s0: Sync, adminNames: set<string>, refused: set<string>, p: string) {
    exists a :: IsStale(env, s0, adminNames, a) && a !in refused && IsAtOrBelow(p, a)
  }

  ghost predicate ListsStale(f: Sync, adminNames: set<string>, deletions: seq<string>) {
    forall p :: p in deletions <==> p in StalePaths(f, adminNames)
  }

  /** A whole synchronisation, in every interleaving of its tasks, every order in which its
      deletions complete and whichever of them fail: of all paths that the cache knew or LDAP
      has, exactly those exist in Keycloak afterwards that are not swept away with a stale group.
      Paths that neither knew are as before, but for the same reason may go. */
  lemma SyncSweepsExactlyTheStale(env: Env, s0: Sync, order: seq<string>, f: Sync, adminNames: set<string>, deletions: seq<string>, refused: set<string>, p: string)
    requires KnownExist(env, s0) && NothingBegun(env, s0) && Runs(env, s0, order, f) && Finished(f)
    requires ListsStale(f, adminNames, deletions)
    ensures p in DeleteInOrder(f, deletions, refused).0.keycloakGroups <==>
      (p in s0.groupsByPath || p in env.desired || p in s0.keycloakGroups) && !IsSweptAway(env, s0, adminNames, refused, p)
    ensures f.groupsByPath.Keys == s0.groupsByPath.Keys + env.desired.Keys
    ensures DeleteInOrder(f, deletions, refused).1 <==> EachFindsItsGroup(deletions, refused)
  {
    hide DeleteInOrder, KnownExist, Runs, IsAtOrBelow, EachFindsItsGroup, GoesWith, IsSweptAway, Agrees;
    FinishedGroups(env, s0, order, f, adminNames, deletions);
    forall q | q in deletions ensures q in f.groupsByPath && q in f.keycloakGroups {
      assert q in StalePaths(f, adminNames);
    }
    DeletedGroups(f, deletions, refused);
    GoesWithStale(env, s0, adminNames, deletions, refused, p);
  }

  lemma GoesWithStale(env: Env, s0: Sync, adminNames: set<string>, deletions: seq<string>, refused: set<string>, p: string)
    requires forall q :: q in deletions <==> IsStale(env, s0, adminNames, q)
    ensures GoesWith(deletions, refused, p) <==> IsSweptAway(env, s0, adminNames, refused, p)
  {
    hide IsStale, IsAtOrBelow;
    assert forall i :: 0 <= i < |deletions| ==> deletions[i] in deletions;
  }

  /** The groups when all tasks are done. */
  lemma FinishedGroups(env: Env, s0: Sync, order: seq<string>, f: Sync, adminNames: set<string>, deletions: seq<string>)
    requires KnownExist(env, s0) && NothingBegun(env, s0) && Runs(env, s0, order, f) && Finished(f)
    requires ListsStale(f, adminNames, deletions)
    ensures forall q :: q in deletions <==> IsStale(env, s0, adminNames, q)
    ensures forall q :: q in f.groupsByPath <==> q in s0.groupsByPath || q in env.desired
    ensures forall q :: q in f.keycloakGroups <==> q in s0.groupsByPath || q in env.desired || q in s0.keycloakGroups
    ensures Agrees(f) && forall q :: q in f.groupsByPath ==> q in f.keycloakGroups
  {
    hide KnownExist, Runs, Agrees, OnlyCreatedAt;
    AllBegunOnlyCreated(env, s0);
    RunOnlyCreates(env, s0, s0, order, f);
    GroupsStayDistinct(env, s0, f);
    FinishedAgrees(f);
    forall q
      ensures q in f.groupsByPath <==> q in s0.groupsByPath || q in env.desired
      ensures q in f.keycloakGroups <==> q in s0.groupsByPath || q in env.desired || q in s0.keycloakGroups
      ensures q in deletions <==> IsStale(env, s0, adminNames, q)
    {
      FinishedGroup(env, s0, f, q);
    }
  }

  lemma FinishedGroup(env: Env, s0: Sync, f: Sync, q: string)
    requires OnlyCreatedAt(env, s0, f, q) && NothingBegun(env, s0) && f.tasks.Keys == s0.tasks.Keys && Finished(f)
    requires q in f.groupsByPath ==> q in f.keycloakGroups
    ensures q in f.groupsByPath <==> q in s0.groupsByPath || q in env.desired
    ensures q in f.keycloakGroups <==> q in s0.groupsByPath || q in env.desired || q in s0.keycloakGroups
    ensures q in s0.groupsByPath ==> f.groupsByPath[q] == s0.groupsByPath[q]
    ensures q in f.tasks <==> q in env.desired
  {
  }

  lemma FinishedAgrees(f: Sync)
    requires forall q :: q in f.groupsByPath ==> q in f.keycloakGroups && f.keycloakGroups[q] == f.groupsByPath[q]
    requires forall q, r :: q in f.keycloakGroups && r in f.keycloakGroups && f.keycloakGroups[q].id == f.keycloakGroups[r].id ==> q == r
    ensures Agrees(f)
  {
  }

  /** So, when no deletion is refused and nothing above is stale, a path that the cache knew or
      LDAP has exists afterwards exactly if LDAP has it or its group carries an admin name. */
  lemma SyncKeepsExactlyLdapAndAdminGroups(env: Env, s0: Sync, order: seq<string>, f: Sync, adminNames: set<string>, deletions: seq<string>, p: string)
    requires KnownExist(env, s0) && NothingBegun(env, s0) && Runs(env, s0, order, f) && Finished(f)
    requires ListsStale(f, adminNames, deletions) && (p in s0.groupsByPath || p in env.desired)
    requires forall a :: IsStale(env, s0, adminNames, a) && IsAtOrBelow(p, a) ==> a == p
    ensures p in DeleteInOrder(f, deletions, {}).0.keycloakGroups <==>
      p in env.desired || s0.groupsByPath[p].name in adminNames
  {
    hide KnownExist, Runs, DeleteInOrder, ListsStale;
    SyncSweepsExactlyTheStale(env, s0, order, f, adminNames, deletions, {}, p);
    assert IsStale(env, s0, adminNames, p) ==> IsSweptAway(env, s0, adminNames, {}, p);
  }

  /** A group with an admin name below a stale one goes with it. */
  lemma AdminSubgroupGoes()
    ensures var x, a := Group("1", "x", "/x"), Group("2", "a", "/x/a");
      var known := map["/x" := x, "/x/a" := a];
      var f := Sync(map[], known, map[], [], known, false);
      StalePaths(f, {"a"}) == {"/x"} && DeleteInOrder(f, ["/x"], {}).0.keycloakGroups == map[]
  {
    var x, a := Group("1", "x", "/x"), Group("2", "a", "/x/a");
    var known := map["/x" := x, "/x/a" := a];
    var f := Sync(map[], known, map[], [], known, false);
    hide DeleteInOrder, GoesWith, IsAtOrBelow;
    DeletedGroups(f, ["/x"], {});
    OneDeletionTakes("/x", "/x");
    OneDeletionTakes("/x", "/x/a");
  }

  lemma OneDeletionTakes(p: string, q: string)
    requires IsAtOrBelow(q, p)
    ensures GoesWith([p], {}, q)
  {
    assert [p][0] == p;
  }

  lemma AllBegunOnlyCreated(env: Env, s0: Sync)
    requires KnownExist(env, s0) && NothingBegun(env, s0)
    ensures OnlyCreated(env, s0, s0)
  {
  }

  lemma GroupsStayDistinct(env: Env, s0: Sync, f: Sync)
    requires KnownExist(env, s0) && OnlyCreated(env, s0, f)
    ensures forall q :: q in f.groupsByPath ==> q in f.keycloakGroups && f.keycloakGroups[q] == f.groupsByPath[q]
    ensures forall q, r :: q in f.keycloakGroups && r in f.keycloakGroups && f.keycloakGroups[q].id == f.keycloakGroups[r].id ==> q == r
  {
    forall q | q in f.groupsByPath
      ensures q in f.keycloakGroups && f.keycloakGroups[q] == f.groupsByPath[q]
    {
      assert OnlyCreatedAt(env, s0, f, q);
    }
    forall q, r | q in f.keycloakGroups && r in f.keycloakGroups && f.keycloakGroups[q].id == f.keycloakGroups[r].id
      ensures q == r
    {
      assert OnlyCreatedAt(env, s0, f, q) && OnlyCreatedAt(env, s0, f, r);
    }
  }

  /** ---- the service ---- */

  /** `GroupsLeft`: the edits are applied, but some stale group could not be deleted. */
  datatype Outcome = Skipped | Unfinished | Failed | GroupsLeft | Synced

  function ByPath(groups: seq<Group>): map<string, Group> {
    if groups == [] then map[]
    else
      var g := groups[|groups| - 1];
      var front := ByPath(groups[..|groups| - 1]);
      if g.path != "" then front[g.path := g] else front
  }

  /** The last group of the list with this path. */
  ghost predicate IsLastAt(groups: seq<Group>, i: nat, p: string) {
    i < |groups| && groups[i].path == p && forall j :: i < j < |groups| ==> groups[j].path != p
  }

  /** The group at a path is the last one in the list with that path; an empty path is no key. */
  lemma {:induction false} LastGroupAtAPath(groups: seq<Group>, p: string)
    ensures p in ByPath(groups) <==> p != "" && exists g :: g in groups && g.path == p
    ensures p in ByPath(groups) ==> exists i: nat :: IsLastAt(groups, i, p) && ByPath(groups)[p] == groups[i]
  {
    if groups != [] {
      var front, g := groups[..|groups| - 1], groups[|groups| - 1];
      assert groups == front + [g];
      LastGroupAtAPath(front, p);
      LastOfMore(front, g, p);
      assert ByPath(groups) == if g.path != "" then ByPath(front)[g.path := g] else ByPath(front);
      hide ByPath;
      if p in ByPath(groups) && g.path != p {
        var i: nat :| IsLastAt(front, i, p) && ByPath(front)[p] == front[i];
        assert IsLastAt(groups, i, p) && groups[i] == front[i];
      }
    }
  }

  lemma LastOfMore(front: seq<Group>, g: Group, p: string)
    ensures g.path == p ==> IsLastAt(front + [g], |front|, p) && (front + [g])[|front|] == g
    ensures g.path != p ==> forall i: nat :: IsLastAt(front, i, p) ==> IsLastAt(front + [g], i, p)
  {
  }

  /** `group.substring(1)` of every admin group path. */
  function AdminNames(adminGroups: seq<string>): set<string> {
    set a | a in adminGroups :: if a == "" then "" else a[1..]
  }

  /** For paths that begin with a slash these are the names behind it. */
  lemma AdminNamesMeaning(adminGroups: seq<string>, name: string)
    requires AllBeginWithSlash(adminGroups)
    ensures name in AdminNames(adminGroups) <==> "/" + name in adminGroups
  {
    assert ("/" + name)[1..] == name;
    if name in AdminNames(adminGroups) {
      var a :| a in adminGroups && (if a == "" then "" else a[1..]) == name;
      assert a == "/" + a[1..];
    }
  }

  ghost predicate AllBeginWithSlash(paths: seq<string>) {
    forall p :: p in paths ==> p != "" && p[0] == '/'
  }

  /** A known group that LDAP does not have and that is at the path of no admin group. */
  ghost predicate IsStaleByPath(env: Env, s0: Sync, adminGroups: seq<string>, p: string) {
    p in s0.groupsByPath && p !in env.desired && "/" + s0.groupsByPath[p].name !in adminGroups
  }

  ghost predicate NothingStaleAbove(env: Env, s0: Sync, adminGroups: seq<string>, p: string) {
    forall a :: IsStaleByPath(env, s0, adminGroups, a) && IsAtOrBelow(p, a) ==> a == p
  }

  /** Some group at or above the path is stale, and its deletion is not refused. */
  ghost predicate IsSweptByPath(env: Env, s0: Sync, adminGroups: seq<string>, refused: set<string>, p: string) {
    exists a :: IsStaleByPath(env, s0, adminGroups, a) && a !in refused && IsAtOrBelow(p, a)
  }

  lemma SweptByPath(env: Env, s0: Sync, adminGroups: seq<string>, refused: set<string>, p: string)
    requires AllBeginWithSlash(adminGroups)
    ensures IsSweptAway(env, s0, AdminNames(adminGroups), refused, p) <==> IsSweptByPath(env, s0, adminGroups, refused, p)
  {
    hide AdminNames, IsAtOrBelow;
    forall a ensures IsStale(env, s0, AdminNames(adminGroups), a) <==> IsStaleByPath(env, s0, adminGroups, a) {
      if a in s0.groupsByPath {
        AdminNamesMeaning(adminGroups, s0.groupsByPath[a].name);
      }
    }
  }

  /** Of the groups that LDAP lacks, and with nothing stale above, the admin groups stay. */
  lemma AdminGroupsStay(env: Env, s0: Sync, adminGroups: seq<string>, refused: set<string>, p: string)
    requires AllBeginWithSlash(adminGroups) && p in s0.groupsByPath && p !in env.desired && p !in refused
    requires NothingStaleAbove(env, s0, adminGroups, p)
    ensures IsSweptAway(env, s0, AdminNames(adminGroups), refused, p) <==> "/" + s0.groupsByPath[p].name !in adminGroups
  {
    SweptByPath(env, s0, adminGroups, refused, p);
    assert IsAtOrBelow(p, p);
  }

  /** The paths of the DNs that have a group name. */
  function PathsOf(dns: set<string>): set<string> {
    set d | d in dns && LdapNames.GroupPath(d).Some? :: LdapNames.GroupPath(d).value
  }

  /** The paths of the LDAP groups; nothing when some DN has no group name. */
  function LdapPaths(dns: set<string>): Option<set<string>> {
    if forall d :: d in dns ==> LdapNames.GroupPath(d).Some? then Some(PathsOf(dns)) else None
  }

  ghost function Image(xs: set<string>, f: string -> string): set<string> {
    set x | x in xs :: f(x)
  }

  ghost predicate Injective(xs: set<string>, f: string -> string) {
    forall x, y :: x in xs && y in xs && f(x) == f(y) ==> x == y
  }

  lemma {:induction false} ImageSize(xs: set<string>, f: string -> string)
    ensures |Image(xs, f)| <= |xs|
    ensures |Image(xs, f)| == |xs| <==> Injective(xs, f)
    decreases xs
  {
    if xs != {} {
      var x :| x in xs;
      var rest := xs - {x};
      ImageSize(rest, f);
      assert Image(xs, f) == Image(rest, f) + {f(x)};
      if f(x) in Image(rest, f) {
        var y :| y in rest && f(y) == f(x);
        assert Image(xs, f) == Image(rest, f) && !Injective(xs, f);
      } else {
        assert |Image(xs, f)| == |Image(rest, f)| + 1;
        assert Injective(xs, f) <==> Injective(rest, f);
      }
    } else {
      assert Image(xs, f) == {};
    }
  }

  /** Two DNs that share a path are one LDAP path: the paths are as many as the DNs exactly when
      no two of them share one. */
  lemma SharedPathsMerge(dns: set<string>)
    requires LdapPaths(dns).Some?
    ensures |LdapPaths(dns).value| <= |dns|
    ensures |LdapPaths(dns).value| == |dns| <==> PathsAreDistinct(dns)
  {
    var path := d => if LdapNames.GroupPath(d).Some? then LdapNames.GroupPath(d).value else "";
    ImageSize(dns, path);
    assert LdapPaths(dns).value == Image(dns, path);
    assert Injective(dns, path) <==> PathsAreDistinct(dns) by {
      hide Image, LdapPaths;
      assert forall d :: d in dns ==> LdapNames.GroupPath(d) == Some(path(d));
    }
  }

  ghost predicate PathsAreDistinct(dns: set<string>) {
    forall d, e :: d in dns && e in dns && LdapNames.GroupPath(d) == LdapNames.GroupPath(e) ==> d == e
  }

  class SyncService {
    const env: Env
    var keycloak: Keycloak
    var tasks: map<string, Task>
    var groupsByPath: map<string, Group>
    var memberCache: map<string, seq<User>>
    var updates: seq<Update>
    var keycloakGroups: map<string, Group>
    var failed: bool

    ghost function St(): Sync
      reads this
    {
      Sync(tasks, groupsByPath, memberCache, updates, keycloakGroups, failed)
    }

    constructor (env: Env, keycloak: Keycloak, groups: map<string, Group>, cache: map<string, seq<User>>)
      ensures this.env == env && this.keycloak == keycloak
      ensures St() == Sync(map[], map[], cache, [], groups, false)
    {
      this.env, this.keycloak := env, keycloak;
      tasks, groupsByPath, memberCache, updates := map[], map[], cache, [];
      keycloakGroups, failed := groups, false;
    }

    method EnsureKeycloakGroupUsingCache(path: string)
      requires path in tasks && tasks[path] == Begun && path in env.desired
      modifies this
      ensures St() == Step(env, old(St()), path) && keycloak == old(keycloak)
    {
      if path in groupsByPath {
        tasks := tasks[path := Ensured(groupsByPath[path])];
      } else if path in keycloakGroups {
        failed := true;
      } else {
        var group := env.created(path);
        keycloakGroups := keycloakGroups[path := group];
        groupsByPath := groupsByPath[path := group];
        memberCache := memberCache[path := []];
        tasks := tasks[path := Ensured(group)];
      }
    }

    /** The two `forEach` loops that record the edits of one group. */
    method PushEdits(toAdd: seq<User>, toRemove: seq<User>, group: string)
      modifies this`updates
      ensures updates == old(updates) + (AddEdits(toAdd, group) + RemoveEdits(toRemove, group))
    {
      for i := 0 to |toAdd|
        invariant updates == old(updates) + AddEdits(toAdd, group)[..i]
      {
        updates := updates + [Update(toAdd[i].id, [group], [])];
      }
      for i := 0 to |toRemove|
        invariant updates == old(updates) + (AddEdits(toAdd, group) + RemoveEdits(toRemove, group)[..i])
      {
        updates := updates + [Update(toRemove[i].id, [], [group])];
      }
    }

    method CompareMembers(path: string)
      requires path in tasks && tasks[path].Ensured? && path in env.desired
      modifies this
      ensures St() == Step(env, old(St()), path) && keycloak == old(keycloak)
    {
      var group := tasks[path].group;
      var resolved := env.desired[path];
      var current := if path in memberCache then memberCache[path] else [];
      var toAdd, toRemove := NotNamed(resolved, Usernames(current)), NotNamed(current, Usernames(resolved));
      PushEdits(toAdd, toRemove, group.id);
      assert |Edits(group.id, resolved, current)| == |toAdd| + |toRemove|;
      tasks := tasks[path := if |toAdd| > 0 || |toRemove| > 0 then Writing(group) else Done];
    }

    method WriteMembers(path: string)
      requires path in tasks && tasks[path].Writing? && path in env.desired
      modifies this
      ensures St() == Step(env, old(St()), path) && keycloak == old(keycloak)
    {
      memberCache := memberCache[path := SanitizeMembers(env.desired[path])];
      tasks := tasks[path := Done];
    }

    method MoveTask(path: string)
      requires path in tasks && path in env.desired
      modifies this
      ensures St() == Step(env, old(St()), path) && keycloak == old(keycloak)
      ensures tasks.Keys == old(tasks.Keys)
    {
      StepKeepsGroups(env, St(), path);
      match tasks[path] {
        case Begun => EnsureKeycloakGroupUsingCache(path);
        case Ensured(_) => CompareMembers(path);
        case Writing(_) => WriteMembers(path);
        case Done =>
      }
    }

    /** `deleteGroup`, and the removal from the cache when it succeeds. */
    method DeleteGroup(path: string, refused: set<string>) returns (ok: bool)
      requires path in groupsByPath
      modifies this
      ensures (St(), ok) == DeleteOne(old(St()), path, refused) && keycloak == old(keycloak)
    {
      var id := groupsByPath[path].id;
      ok := path !in refused && HasId(keycloakGroups, id);
      if ok {
        keycloakGroups := RemoveGroup(keycloakGroups, id);
        memberCache := memberCache - {path};
      }
    }

    /** Every deletion is tried, and they complete in any order; those of the paths in `refused`
        fail. */
    method DeleteStaleGroups(adminGroupNames: set<string>, refused: set<string>) returns (ok: bool, ghost order: seq<string>)
      modifies this
      ensures ListsStale(old(St()), adminGroupNames, order)
      ensures forall i, j :: 0 <= i < j < |order| ==> order[i] != order[j]
      ensures (St(), ok) == DeleteInOrder(old(St()), order, refused) && keycloak == old(keycloak)
    {
      ghost var s0 := St();
      var toDelete := set p | p in groupsByPath && p !in tasks;
      ghost var all := toDelete;
      ok, order := true, [];
      while toDelete != {}
        invariant keycloak == old(keycloak) && groupsByPath == s0.groupsByPath
        invariant toDelete <= all <= s0.groupsByPath.Keys
        invariant forall p :: p in order <==> p in all - toDelete && s0.groupsByPath[p].name !in adminGroupNames
        invariant forall i, j :: 0 <= i < j < |order| ==> order[i] != order[j]
        invariant (St(), ok) == DeleteInOrder(s0, order, refused)
        decreases toDelete
      {
        var path :| path in toDelete;
        toDelete := toDelete - {path};
        if groupsByPath[path].name !in adminGroupNames {
          var deleted := DeleteGroup(path, refused);
          ok := ok && deleted;
          assert (order + [path])[..|order|] == order;
          order := order + [path];
        }
      }
    }

    method IndexByPath(groups: seq<Group>) returns (byPath: map<string, Group>)
      ensures byPath == ByPath(groups)
    {
      byPath := map[];
      for i := 0 to |groups|
        invariant byPath == ByPath(groups[..i])
      {
        assert groups[..i + 1][..i] == groups[..i];
        if groups[i].path != "" {
          byPath := byPath[groups[i].path := groups[i]];
        }
      }
      assert groups[..|groups|] == groups;
    }

    /** The tasks of all groups, resumed in the order of `schedule`. */
    method RunTasks(schedule: seq<string>) returns (ghost order: seq<string>)
      requires tasks.Keys == env.desired.Keys
      modifies this
      ensures keycloak == old(keycloak) && tasks.Keys == env.desired.Keys
      ensures Runs(env, old(St()), order, St())
    {
      ghost var s0 := St();
      order := [];
      for i := 0 to |schedule|
        invariant keycloak == old(keycloak) && tasks.Keys == env.desired.Keys
        invariant Runs(env, s0, order, St())
      {
        var p := schedule[i];
        if p in tasks {
          ghost var at := St();
          RunsAppend(env, s0, order, at, p);
          MoveTask(p);
          order := order + [p];
          assert Runs(env, s0, order, Step(env, at, p));
        }
      }
    }

    /** The maps `sync` builds before its tasks start.  The task of a DN without a group name
        fails at once, which fails the synchronisation; the other tasks start all the same. */
    method StartTasks(dns: set<string>, cachedGroups: seq<Group>) returns (ok: bool)
      requires PathsOf(dns) == env.desired.Keys
      modifies this
      ensures keycloak == old(keycloak)
      ensures ok == LdapPaths(dns).Some?
      ensures St() == StartOf(env, cachedGroups, old(memberCache), old(keycloakGroups))
    {
      groupsByPath := IndexByPath(cachedGroups);
      tasks := map p | p in PathsOf(dns) :: Begun;
      updates, failed := [], false;
      ok := LdapPaths(dns).Some?;
    }

    /** `sync` after its guards.  A schedule that ends early leaves the synchronisation
        unfinished; one that does not get through its tasks changes no membership, and neither
        does a DN without a group name, although the other tasks go on. */
    method Run(dns: set<string>, cachedGroups: seq<Group>, adminGroups: seq<string>, schedule: seq<string>,
               fails: Request -> bool, refused: set<string>)
      returns (outcome: Outcome, ghost order: seq<string>, ghost f: Sync, ghost sent: seq<Request>, ghost deletions: seq<string>)
      requires PathsOf(dns) == env.desired.Keys
      modifies this, keycloak
      ensures keycloak == old(keycloak)
      ensures cachedGroups == [] <==> outcome == Skipped
      ensures outcome.Skipped? ==> St() == old(St())
      ensures !outcome.Skipped? ==> Runs(env, StartOf(env, cachedGroups, old(memberCache), old(keycloakGroups)), order, f)
      ensures outcome.Failed? || outcome.Unfinished? ==> St() == f && keycloak.memberships == old(keycloak.memberships)
      ensures outcome.GroupsLeft? || outcome.Synced? ==>
        && LdapPaths(dns).Some? && Finished(f) && CompletionOrder(Batches(f.updates), fails, sent)
        && keycloak.memberships == ApplyAll(old(keycloak.memberships), sent, fails)
        && ListsStale(f, AdminNames(adminGroups), deletions)
        && (St(), outcome.Synced?) == DeleteInOrder(f, deletions, refused)
      ensures var s0 := StartOf(env, cachedGroups, old(memberCache), old(keycloakGroups));
        (outcome.GroupsLeft? || outcome.Synced?) && KnownExist(env, s0) ==>
          && (forall p :: p in keycloakGroups <==>
                (p in s0.groupsByPath || p in env.desired || p in s0.keycloakGroups) &&
                !IsSweptAway(env, s0, AdminNames(adminGroups), refused, p))
          && (outcome.Synced? <==> EachFindsItsGroup(deletions, refused))
      ensures var s0 := StartOf(env, cachedGroups, old(memberCache), old(keycloakGroups));
        (outcome.GroupsLeft? || outcome.Synced?) && KnownExist(env, s0) && AllBeginWithSlash(adminGroups) ==>
          && (forall p :: p in keycloakGroups <==>
                (p in s0.groupsByPath || p in env.desired || p in s0.keycloakGroups) &&
                !IsSweptByPath(env, s0, adminGroups, refused, p))
          && (forall p :: p in s0.groupsByPath && p !in env.desired && p !in refused && NothingStaleAbove(env, s0, adminGroups, p) ==>
                (p in keycloakGroups <==> "/" + s0.groupsByPath[p].name in adminGroups))
    {
      order, sent, deletions, f := [], [], [], St();
      if cachedGroups == [] {
        return Skipped, order, f, sent, deletions;
      }
      ghost var s0 := StartOf(env, cachedGroups, memberCache, keycloakGroups);
      var parsed := StartTasks(dns, cachedGroups);
      order := RunTasks(schedule);
      f := St();
      if !parsed || failed {
        return Failed, order, f, sent, deletions;
      }
      if exists p :: p in tasks && !tasks[p].Done? {
        return Unfinished, order, f, sent, deletions;
      }
      sent := keycloak.ApplyUpdatesDeduped(updates, fails);
      var deleted;
      deleted, deletions := DeleteStaleGroups(AdminNames(adminGroups), refused);
      outcome := if deleted then Synced else GroupsLeft;
      if KnownExist(env, s0) {
        forall p ensures p in keycloakGroups <==>
            (p in s0.groupsByPath || p in env.desired || p in s0.keycloakGroups) &&
            !IsSweptAway(env, s0, AdminNames(adminGroups), refused, p)
        {
          SyncSweepsExactlyTheStale(env, s0, order, f, AdminNames(adminGroups), deletions, refused, p);
        }
        SyncSweepsExactlyTheStale(env, s0, order, f, AdminNames(adminGroups), deletions, refused, "");
        if AllBeginWithSlash(adminGroups) {
          forall p ensures IsSweptAway(env, s0, AdminNames(adminGroups), refused, p) <==> IsSweptByPath(env, s0, adminGroups, refused, p) {
            SweptByPath(env, s0, adminGroups, refused, p);
          }
          forall p | p in s0.groupsByPath && p !in env.desired && p !in refused && NothingStaleAbove(env, s0, adminGroups, p)
            ensures p in keycloakGroups <==> "/" + s0.groupsByPath[p].name in adminGroups
          {
            AdminGroupsStay(env, s0, adminGroups, refused, p);
          }
        }
      }
    }
  }

  /** The state in which the tasks of a synchronisation start. */
  ghost function StartOf(env: Env, groups: seq<Group>, cache: map<string, seq<User>>, keycloakGroups: map<string, Group>): Sync {
    Sync(map p | p in env.desired :: Begun, ByPath(groups), cache, [], keycloakGroups, false)
  }

  lemma {:induction false} RunsAppend(env: Env, s: Sync, order: seq<string>, f: Sync, p: string)
    requires Runs(env, s, order, f) && p in env.desired && p in f.tasks
    ensures Runs(env, s, order + [p], Step(env, f, p))
    decreases |order|
  {
    if order == [] {
      assert (order + [p])[1..] == [];
    } else {
      RunsAppend(env, Step(env, s, order[0]), order[1..], f, p);
      assert (order + [p])[1..] == order[1..] + [p];
    }
  }
}
