/** The three parts of the synchronisation put together: expansion of the group graph,
    resolution of the names found, and the edits sent to Keycloak.  The members a group is
    given are not assumed but are those that the first two parts come to. */
module LdapEndToEnd {
  import opened Types
  import opened LdapNames
  import LdapMembers
  import LdapResolver
  import LdapUpdates
  import LdapSync

  /** The raw members of one group name this account. */
  ghost predicate IsAccountOf(dir: LdapMembers.Directory, accounts: LdapResolver.Accounts, dn: string, id: string) {
    exists raw :: raw in dir.Raw(dn) && NamesAccount(accounts, raw, id)
  }

  ghost predicate NamesAccount(accounts: LdapResolver.Accounts, raw: string, id: string) {
    ExtractCn(raw).Some? && accounts.FindUser(ExtractCn(raw).value).Some? && accounts.FindUser(ExtractCn(raw).value).value.id == id
  }

  /** Some group reachable from `root` names this account. */
  ghost predicate IsReachableAccount(dir: LdapMembers.Directory, accounts: LdapResolver.Accounts, root: string, id: string) {
    exists dn :: dir.Reachable(root, dn) && IsAccountOf(dir, accounts, dn, id)
  }

  /** Group names and usernames are disjoint. */
  ghost predicate AreNoUsers(accounts: LdapResolver.Accounts, names: set<string>) {
    forall n :: n in names ==> accounts.FindUser(n).None?
  }

  /** What one task does to find its members: the expansion, with the answers in their order
      and the names learned meanwhile, and the resolution of the names found. */
  datatype Work = Work(
    answers: seq<LdapMembers.Event>, run: LdapMembers.Run,
    known: map<string, User>, caches: LdapResolver.Caches,
    events: seq<LdapResolver.Event>, batch: LdapResolver.Members)

  ghost predicate IsWork(dir: LdapMembers.Directory, accounts: LdapResolver.Accounts, root: string, w: Work) {
    && LdapMembers.Runs(LdapMembers.Start(dir, root), w.answers, w.run) && w.run.Finished()
    && AreNoUsers(accounts, w.run.dir.groupNames)
    && LdapResolver.Known(accounts, w.known) && w.caches.Sound(accounts)
    && LdapResolver.MembersRun(accounts, w.known, w.run.tree.Flat(),
                               LdapResolver.StartMembers(w.caches, w.run.tree.Flat()), w.events, w.batch)
    && forall i :: 0 <= i < |w.batch.pcs| ==> w.batch.pcs[i].Settled?
  }

  lemma {:induction false} FreshUsersMeaning(accounts: LdapResolver.Accounts, names: seq<string>, u: User)
    ensures u in LdapResolver.FreshUsers(accounts, names) <==>
      exists cn :: cn in names && accounts.FindUser(cn) == Some(u)
  {
    if names != [] {
      FreshUsersMeaning(accounts, names[1..], u);
      assert forall cn :: cn in names <==> cn == names[0] || cn in names[1..];
    }
  }

  lemma {:induction false} PersonsMeaning(dir: LdapMembers.Directory, raws: seq<string>, cn: string)
    ensures cn in dir.Persons(raws) <==>
      cn !in dir.groupNames && exists raw :: raw in raws && ExtractCn(raw) == Some(cn)
  {
    if raws != [] {
      PersonsMeaning(dir, raws[1..], cn);
      assert forall raw :: raw in raws <==> raw == raws[0] || raw in raws[1..];
    }
  }

  lemma {:induction false} AllPersonsMeaning(dir: LdapMembers.Directory, dns: set<string>, cn: string)
    ensures cn in LdapMembers.AllPersons(dir, dns) <==> exists dn :: dn in dns && cn in dir.Persons(dir.Raw(dn))
    decreases dns
  {
    if dns != {} {
      var dn :| dn in dns;
      LdapMembers.AllPersonsAdd(dir, dns, dn);
      AllPersonsMeaning(dir, dns - {dn}, cn);
      assert cn in multiset(dir.Persons(dir.Raw(dn))) <==> cn in dir.Persons(dir.Raw(dn));
      assert forall d :: d in dns <==> d == dn || d in dns - {dn};
    }
  }

  lemma SameIds(a: seq<User>, b: seq<User>)
    requires multiset(a) == multiset(b)
    ensures LdapSync.Ids(a) == LdapSync.Ids(b)
  {
    assert forall u :: u in a <==> u in multiset(a);
    assert forall u :: u in b <==> u in multiset(b);
  }

  /** A name that is no group's is returned exactly if a visited group lists it. */
  lemma NamesOfRun(dir: LdapMembers.Directory, root: string, answers: seq<LdapMembers.Event>, run: LdapMembers.Run, cn: string)
    requires LdapMembers.Runs(LdapMembers.Start(dir, root), answers, run) && run.Finished() && cn !in run.dir.groupNames
    ensures cn in run.tree.Flat() <==> exists dn :: dn in run.visited && cn in dir.Persons(dir.Raw(dn))
  {
    hide LdapMembers.Runs, LdapMembers.AllPersons;
    LdapMembers.FetchMembersUnderLearning(dir, root, answers, run);
    AllPersonsMeaning(dir, run.visited, cn);
    assert cn in run.tree.Flat() <==> cn in multiset(run.tree.Flat());
  }

  /** The accounts among some names. */
  ghost predicate IsNamed(accounts: LdapResolver.Accounts, names: seq<string>, id: string) {
    exists cn :: cn in names && accounts.FindUser(cn).Some? && accounts.FindUser(cn).value.id == id
  }

  lemma NamedAccounts(accounts: LdapResolver.Accounts, names: seq<string>, id: string)
    ensures id in LdapSync.Ids(LdapResolver.FreshUsers(accounts, names)) <==> IsNamed(accounts, names, id)
  {
    var found := LdapResolver.FreshUsers(accounts, names);
    if id in LdapSync.Ids(found) {
      var u :| u in found && u.id == id;
      FreshUsersMeaning(accounts, names, u);
    }
    if IsNamed(accounts, names, id) {
      var cn :| cn in names && accounts.FindUser(cn).Some? && accounts.FindUser(cn).value.id == id;
      FreshUsersMeaning(accounts, names, accounts.FindUser(cn).value);
    }
  }

  ghost predicate IsVisitedAccount(dir: LdapMembers.Directory, accounts: LdapResolver.Accounts, visited: set<string>, id: string) {
    exists dn :: dn in visited && IsAccountOf(dir, accounts, dn, id)
  }

  lemma VisitedAccounts(dir: LdapMembers.Directory, accounts: LdapResolver.Accounts, root: string,
                        answers: seq<LdapMembers.Event>, run: LdapMembers.Run, id: string)
    requires LdapMembers.Runs(LdapMembers.Start(dir, root), answers, run) && run.Finished()
    requires AreNoUsers(accounts, run.dir.groupNames)
    ensures IsNamed(accounts, run.tree.Flat(), id) <==> IsVisitedAccount(dir, accounts, run.visited, id)
  {
    var names := run.tree.Flat();
    LdapMembers.FetchMembersUnderLearning(dir, root, answers, run);
    if IsNamed(accounts, names, id) {
      var cn :| cn in names && accounts.FindUser(cn).Some? && accounts.FindUser(cn).value.id == id;
      NamesOfRun(dir, root, answers, run, cn);
      var dn :| dn in run.visited && cn in dir.Persons(dir.Raw(dn));
      PersonsMeaning(dir, dir.Raw(dn), cn);
      var raw :| raw in dir.Raw(dn) && ExtractCn(raw) == Some(cn);
      assert NamesAccount(accounts, raw, id);
    }
    if IsVisitedAccount(dir, accounts, run.visited, id) {
      var dn :| dn in run.visited && IsAccountOf(dir, accounts, dn, id);
      var raw :| raw in dir.Raw(dn) && NamesAccount(accounts, raw, id);
      var cn := ExtractCn(raw).value;
      PersonsMeaning(dir, dir.Raw(dn), cn);
      NamesOfRun(dir, root, answers, run, cn);
    }
  }

  /** The members one task computes, in any interleaving of searches and of resolutions and
      whatever names are learned meanwhile, are the accounts of the groups it has visited. */
  lemma ResolvedMembers(dir: LdapMembers.Directory, accounts: LdapResolver.Accounts, root: string, w: Work, id: string)
    requires accounts.Consistent() && IsWork(dir, accounts, root, w)
    ensures id in LdapSync.Ids(w.batch.members) <==> IsVisitedAccount(dir, accounts, w.run.visited, id)
  {
    hide LdapMembers.Runs, LdapResolver.MembersRun, LdapMembers.Start, LdapResolver.StartMembers;
    var names := w.run.tree.Flat();
    LdapResolver.ResolveMembersIsFresh(accounts, w.known, w.caches, names, w.events, w.batch);
    SameIds(w.batch.members, LdapResolver.FreshUsers(accounts, names));
    NamedAccounts(accounts, names, id);
    VisitedAccounts(dir, accounts, root, w.answers, w.run, id);
  }

  /** So every account reachable with the group names known at the start is a member, and every
      member is an account reachable with those known at the end. */
  lemma MembersAreBetween(dir: LdapMembers.Directory, accounts: LdapResolver.Accounts, root: string, w: Work, id: string)
    requires accounts.Consistent() && IsWork(dir, accounts, root, w)
    ensures IsReachableAccount(dir, accounts, root, id) ==> id in LdapSync.Ids(w.batch.members)
    ensures id in LdapSync.Ids(w.batch.members) ==> IsReachableAccount(w.run.dir, accounts, root, id)
  {
    LdapMembers.FetchMembersUnderLearning(dir, root, w.answers, w.run);
    ResolvedMembers(dir, accounts, root, w, id);
    if IsReachableAccount(dir, accounts, root, id) {
      var dn :| dir.Reachable(root, dn) && IsAccountOf(dir, accounts, dn, id);
      assert dn in w.run.visited;
    }
    if IsVisitedAccount(dir, accounts, w.run.visited, id) {
      var dn :| dn in w.run.visited && IsAccountOf(dir, accounts, dn, id);
      assert w.run.dir.Reachable(root, dn) && IsAccountOf(w.run.dir, accounts, dn, id);
    }
  }

  /** Every user found is in the directory. */
  lemma FoundUsers(dir: LdapMembers.Directory, accounts: LdapResolver.Accounts, root: string, w: Work, u: User)
    requires accounts.Consistent() && IsWork(dir, accounts, root, w) && u in w.batch.members
    ensures exists cn :: accounts.FindUser(cn) == Some(u)
  {
    hide LdapMembers.Runs, LdapResolver.MembersRun, LdapMembers.Start, LdapResolver.StartMembers;
    var names := w.run.tree.Flat();
    LdapResolver.ResolveMembersIsFresh(accounts, w.known, w.caches, names, w.events, w.batch);
    assert u in multiset(w.batch.members);
    FreshUsersMeaning(accounts, names, u);
  }

  /** A finished synchronisation whose changes succeed gives the Keycloak group of an LDAP
      group, in which usernames tell the accounts, exactly the accounts of the groups its task has
      visited: all that are reachable with the group names known at the start, and only such as are reachable with those known
      at the end.  When no name learned meanwhile is listed in a reachable group, these are
      the accounts of all persons reachable in the LDAP graph. */
  lemma KeycloakHoldsTheReachableAccounts(
    dir: LdapMembers.Directory, accounts: LdapResolver.Accounts, root: string, w: Work,
    env: LdapSync.Env, s0: LdapSync.Sync, order: seq<string>, f: LdapSync.Sync,
    k: LdapUpdates.Memberships, fails: LdapUpdates.Request -> bool, sent: seq<LdapUpdates.Request>, path: string, id: string)
    requires accounts.Consistent() && IsWork(dir, accounts, root, w)
    requires path in env.desired && env.desired[path] == w.batch.members
    requires LdapSync.Usable(env, s0) && LdapSync.Runs(env, s0, order, f) && LdapSync.Finished(f)
    requires LdapSync.CacheMatches(env, s0, k) && LdapSync.NamesTellAccounts(env.desired[path], LdapSync.Before(s0, path))
    requires LdapUpdates.CompletionOrder(LdapUpdates.Batches(f.updates), fails, sent)
    requires LdapSync.ChangesSucceed(k, f.updates, fails)
    ensures var holds := (id, LdapSync.GroupOf(env, s0, path).id) in LdapUpdates.ApplyAll(k, sent, fails);
      && (holds <==> IsVisitedAccount(dir, accounts, w.run.visited, id))
      && (IsReachableAccount(dir, accounts, root, id) ==> holds)
      && (holds ==> IsReachableAccount(w.run.dir, accounts, root, id))
      && (LdapMembers.Unaffected(dir, w.run.dir, root) ==> (holds <==> IsReachableAccount(dir, accounts, root, id)))
  {
    hide IsWork, LdapSync.Usable, LdapSync.Runs, LdapUpdates.CompletionOrder, LdapSync.ChangesSucceed, LdapSync.NamesTellAccounts;
    ResolvedMembers(dir, accounts, root, w, id);
    MembersAreBetween(dir, accounts, root, w, id);
    LdapSync.GroupReachedIff(env, s0, order, f, k, fails, sent, path);
    var g := LdapSync.GroupOf(env, s0, path).id;
    assert id in LdapSync.MembersOf(LdapUpdates.ApplyAll(k, sent, fails), g) <==>
      (id, g) in LdapUpdates.ApplyAll(k, sent, fails);
    if LdapMembers.Unaffected(dir, w.run.dir, root) {
      WorkKnowsMore(dir, accounts, root, w);
      UnaffectedAccounts(dir, w.run.dir, accounts, root, id);
    }
  }

  lemma WorkKnowsMore(dir: LdapMembers.Directory, accounts: LdapResolver.Accounts, root: string, w: Work)
    requires IsWork(dir, accounts, root, w)
    ensures LdapMembers.Knows(w.run.dir, dir)
  {
    LdapMembers.FetchMembersUnderLearning(dir, root, w.answers, w.run);
  }

  lemma UnaffectedAccounts(dir: LdapMembers.Directory, more: LdapMembers.Directory, accounts: LdapResolver.Accounts, root: string, id: string)
    requires LdapMembers.Knows(more, dir) && LdapMembers.Unaffected(dir, more, root)
    ensures IsReachableAccount(more, accounts, root, id) <==> IsReachableAccount(dir, accounts, root, id)
  {
    if IsReachableAccount(more, accounts, root, id) {
      var dn :| more.Reachable(root, dn) && IsAccountOf(more, accounts, dn, id);
      var path :| more.IsPath(path) && path[0] == root && path[|path| - 1] == dn;
      LdapMembers.SameReach(dir, more, root, path);
      assert IsAccountOf(dir, accounts, dn, id);
    }
    if IsReachableAccount(dir, accounts, root, id) {
      var dn :| dir.Reachable(root, dn) && IsAccountOf(dir, accounts, dn, id);
      LdapMembers.MoreIsReachable(dir, more, root, dn);
      assert IsAccountOf(more, accounts, dn, id);
    }
  }

  /** ---- the next synchronisation ---- */

  /** The members of every LDAP group are those its task has found. */
  ghost predicate Derived(env: LdapSync.Env, roots: map<string, string>, dir: LdapMembers.Directory,
                          accounts: LdapResolver.Accounts, works: map<string, Work>) {
    && env.desired.Keys == roots.Keys == works.Keys
    && forall p :: p in roots ==> IsWork(dir, accounts, roots[p], works[p]) && env.desired[p] == works[p].batch.members
  }

  /** In the directory an account has one username, a username one account, and neither is blank. */
  ghost predicate Identified(accounts: LdapResolver.Accounts) {
    && (forall a, b :: accounts.FindUser(a).Some? && accounts.FindUser(b).Some? ==>
         (accounts.FindUser(a).value.id == accounts.FindUser(b).value.id <==>
          accounts.FindUser(a).value.username == accounts.FindUser(b).value.username))
    && (forall a :: accounts.FindUser(a).Some? ==> ValidMember(accounts.FindUser(a).value))
  }

  lemma FoundUsersArePaired(
    accounts: LdapResolver.Accounts, root: string, dir: LdapMembers.Directory, w: Work, dir2: LdapMembers.Directory, w2: Work)
    requires accounts.Consistent() && Identified(accounts)
    requires IsWork(dir, accounts, root, w) && IsWork(dir2, accounts, root, w2)
    ensures LdapSync.Paired(w.batch.members, w2.batch.members) && LdapSync.AllValid(w.batch.members)
  {
    hide IsWork;
    var both := w.batch.members + w2.batch.members;
    forall u | u in both ensures exists cn :: accounts.FindUser(cn) == Some(u) {
      if u in w.batch.members {
        FoundUsers(dir, accounts, root, w, u);
      } else {
        FoundUsers(dir2, accounts, root, w2, u);
      }
    }
    forall u, v | u in both && v in both ensures u.id == v.id <==> u.username == v.username {
      var a :| accounts.FindUser(a) == Some(u);
      var b :| accounts.FindUser(b) == Some(v);
      assert accounts.FindUser(a).Some? && accounts.FindUser(b).Some?;
    }
    forall u | u in w.batch.members ensures ValidMember(u) {
      assert u in both;
      var a :| accounts.FindUser(a) == Some(u);
      assert accounts.FindUser(a).Some?;
    }
  }

  /** Two finished synchronisations of the same LDAP groups, with the members derived and the
      cache as it may be before the first: the second records no edit if and only if, for every
      group, the groups visited by both expansions name the same accounts. */
  lemma SecondSyncIsQuietIff(
    accounts: LdapResolver.Accounts, roots: map<string, string>,
    dir: LdapMembers.Directory, works: map<string, Work>, env: LdapSync.Env, s0: LdapSync.Sync, order: seq<string>, f: LdapSync.Sync,
    dir2: LdapMembers.Directory, works2: map<string, Work>, env2: LdapSync.Env, s1: LdapSync.Sync, order2: seq<string>, f2: LdapSync.Sync)
    requires accounts.Consistent() && Identified(accounts)
    requires Derived(env, roots, dir, accounts, works) && Derived(env2, roots, dir2, accounts, works2)
    requires LdapSync.Usable(env, s0) && LdapSync.Runs(env, s0, order, f) && LdapSync.Finished(f)
    requires LdapSync.Usable(env2, s1) && LdapSync.Follows(env2, s1, f)
    requires LdapSync.Runs(env2, s1, order2, f2) && LdapSync.Finished(f2)
    ensures f2.updates == [] <==>
      forall p, id :: p in roots ==>
        (IsVisitedAccount(dir, accounts, works[p].run.visited, id) <==> IsVisitedAccount(dir2, accounts, works2[p].run.visited, id))
  {
    hide IsWork, LdapSync.Usable, LdapSync.Runs, LdapSync.Follows, IsVisitedAccount, Identified, LdapSync.Paired, LdapSync.NamesAsCached;
    LdapSync.SecondSyncIsQuietIff(env, s0, order, f, env2, s1, order2, f2);
    forall p | p in roots
      ensures LdapSync.AllValid(env.desired[p])
      ensures LdapSync.Ids(env.desired[p]) == LdapSync.Ids(env2.desired[p]) <==>
        LdapSync.Usernames(env.desired[p]) == LdapSync.Usernames(env2.desired[p])
    {
      FoundUsersArePaired(accounts, roots[p], dir, works[p], dir2, works2[p]);
      LdapSync.SameIdsIffSameNames(env.desired[p], env2.desired[p]);
    }
    forall p, id | p in roots
      ensures id in LdapSync.Ids(env.desired[p]) <==> IsVisitedAccount(dir, accounts, works[p].run.visited, id)
      ensures id in LdapSync.Ids(env2.desired[p]) <==> IsVisitedAccount(dir2, accounts, works2[p].run.visited, id)
    {
      ResolvedMembers(dir, accounts, roots[p], works[p], id);
      ResolvedMembers(dir2, accounts, roots[p], works2[p], id);
    }
    assert LdapSync.SameNames(env, env2) <==>
      forall p, id :: p in roots ==> (id in LdapSync.Ids(env.desired[p]) <==> id in LdapSync.Ids(env2.desired[p])) by {
      hide LdapSync.Ids, LdapSync.Usernames;
      assert LdapSync.SameNames(env, env2) <==>
        forall p :: p in roots ==> LdapSync.Ids(env.desired[p]) == LdapSync.Ids(env2.desired[p]);
    }
  }

  /** The two tasks find the same accounts however they go, the first knowing `dir` and
      learning `names`, the second knowing `dir2` and learning `names2`. */
  ghost predicate AlwaysSameMembers(accounts: LdapResolver.Accounts, root: string,
                                    dir: LdapMembers.Directory, names: set<string>, dir2: LdapMembers.Directory, names2: set<string>) {
    forall w1, w2 :: Learns(accounts, root, dir, names, w1) && Learns(accounts, root, dir2, names2, w2) ==>
      LdapSync.Ids(w1.batch.members) == LdapSync.Ids(w2.batch.members)
  }

  ghost predicate Learns(accounts: LdapResolver.Accounts, root: string, dir: LdapMembers.Directory, names: set<string>, w: Work) {
    IsWork(dir, accounts, root, w) && w.run.dir == dir.Learned(names)
  }

  /** The same accounts are reachable with either set of group names. */
  ghost predicate SameReachable(accounts: LdapResolver.Accounts, root: string, a: LdapMembers.Directory, b: LdapMembers.Directory) {
    forall id :: IsReachableAccount(a, accounts, root, id) <==> IsReachableAccount(b, accounts, root, id)
  }

  lemma FinishWork(dir: LdapMembers.Directory, accounts: LdapResolver.Accounts, root: string,
                   answers: seq<LdapMembers.Event>, run: LdapMembers.Run) returns (w: Work)
    requires LdapMembers.Runs(LdapMembers.Start(dir, root), answers, run) && run.Finished() && AreNoUsers(accounts, run.dir.groupNames)
    ensures IsWork(dir, accounts, root, w) && w.run == run
  {
    var names, caches := run.tree.Flat(), LdapResolver.EMPTY;
    var events, batch := LdapResolver.EveryBatchCanFinish(accounts, map[], names, LdapResolver.StartMembers(caches, names));
    w := Work(answers, run, map[], caches, events, batch);
    NothingCachedIsSound(accounts);
  }

  lemma NothingCachedIsSound(accounts: LdapResolver.Accounts)
    ensures LdapResolver.EMPTY.Sound(accounts) && LdapResolver.Known(accounts, map[])
  {
  }

  /** A task that learns its names last, and one that learns them first. */
  lemma LateAndEarlyWork(dir: LdapMembers.Directory, accounts: LdapResolver.Accounts, root: string, names: set<string>)
    returns (late: Work, early: Work)
    requires accounts.Consistent() && AreNoUsers(accounts, dir.groupNames + names)
    ensures Learns(accounts, root, dir, names, late) && Learns(accounts, root, dir, names, early)
    ensures forall id :: id in LdapSync.Ids(late.batch.members) <==> IsReachableAccount(dir, accounts, root, id)
    ensures forall id :: id in LdapSync.Ids(early.batch.members) <==> IsReachableAccount(dir.Learned(names), accounts, root, id)
  {
    var o1, f1 := LdapMembers.LateRun(dir, root, names);
    var o2, f2 := LdapMembers.EarlyRun(dir, root, names);
    late := FinishWork(dir, accounts, root, o1, f1);
    early := FinishWork(dir, accounts, root, o2, f2);
    forall id ensures id in LdapSync.Ids(late.batch.members) <==> IsReachableAccount(dir, accounts, root, id) {
      ResolvedMembers(dir, accounts, root, late, id);
      VisitedIsReachable(dir, dir, accounts, root, f1.visited, id);
    }
    forall id ensures id in LdapSync.Ids(early.batch.members) <==> IsReachableAccount(dir.Learned(names), accounts, root, id) {
      ResolvedMembers(dir, accounts, root, early, id);
      VisitedIsReachable(dir, dir.Learned(names), accounts, root, f2.visited, id);
    }
  }

  lemma VisitedIsReachable(dir: LdapMembers.Directory, view: LdapMembers.Directory, accounts: LdapResolver.Accounts, root: string,
                           visited: set<string>, id: string)
    requires view.entries == dir.entries && forall d :: d in visited <==> view.Reachable(root, d)
    ensures IsVisitedAccount(dir, accounts, visited, id) <==> IsReachableAccount(view, accounts, root, id)
  {
    if IsVisitedAccount(dir, accounts, visited, id) {
      var dn :| dn in visited && IsAccountOf(dir, accounts, dn, id);
      assert view.Reachable(root, dn) && IsAccountOf(view, accounts, dn, id);
    }
    if IsReachableAccount(view, accounts, root, id) {
      var dn :| view.Reachable(root, dn) && IsAccountOf(view, accounts, dn, id);
      assert dn in visited && IsAccountOf(dir, accounts, dn, id);
    }
  }

  /** For one LDAP group: two tasks find the same accounts in every interleaving, whenever each
      learns its names, if and only if the same accounts are reachable with the names known at
      the start and at the end of the first and of the second. */
  lemma SameMembersIff(accounts: LdapResolver.Accounts, root: string,
                       dir: LdapMembers.Directory, names: set<string>, dir2: LdapMembers.Directory, names2: set<string>)
    requires accounts.Consistent() && dir2.entries == dir.entries
    requires AreNoUsers(accounts, dir.groupNames + names) && AreNoUsers(accounts, dir2.groupNames + names2)
    ensures AlwaysSameMembers(accounts, root, dir, names, dir2, names2) <==>
      && SameReachable(accounts, root, dir, dir.Learned(names))
      && SameReachable(accounts, root, dir, dir2)
      && SameReachable(accounts, root, dir, dir2.Learned(names2))
  {
    hide IsWork, IsReachableAccount;
    if SameReachable(accounts, root, dir, dir.Learned(names)) && SameReachable(accounts, root, dir, dir2) &&
       SameReachable(accounts, root, dir, dir2.Learned(names2)) {
      forall w1, w2 | Learns(accounts, root, dir, names, w1) && Learns(accounts, root, dir2, names2, w2)
        ensures LdapSync.Ids(w1.batch.members) == LdapSync.Ids(w2.batch.members)
      {
        forall id ensures id in LdapSync.Ids(w1.batch.members) <==> id in LdapSync.Ids(w2.batch.members) {
          MembersAreBetween(dir, accounts, root, w1, id);
          MembersAreBetween(dir2, accounts, root, w2, id);
        }
      }
    }
    if AlwaysSameMembers(accounts, root, dir, names, dir2, names2) {
      var late, early := LateAndEarlyWork(dir, accounts, root, names);
      var late2, early2 := LateAndEarlyWork(dir2, accounts, root, names2);
      assert LdapSync.Ids(late.batch.members) == LdapSync.Ids(late2.batch.members) == LdapSync.Ids(early.batch.members);
      assert LdapSync.Ids(late.batch.members) == LdapSync.Ids(early2.batch.members);
    }
  }

  /** A cached group A that lists B, which the cache does not know yet. */
  function ListsB(members: seq<string>): LdapMembers.Directory {
    LdapMembers.Directory(map["CN=A" := ["CN=B"], "CN=B" := members], {"A"})
  }

  lemma NamesOfListsB()
    ensures ExtractCn("CN=A") == Some("A") && ExtractCn("CN=B") == Some("B") && ExtractCn("CN=u") == Some("u")
  {
    CnOfLetter('A');
    CnOfLetter('B');
    CnOfLetter('u');
    assert "CN=" + ['A'] == "CN=A" && "CN=" + ['B'] == "CN=B" && "CN=" + ['u'] == "CN=u";
    assert ['A'] == "A" && ['B'] == "B" && ['u'] == "u";
  }

  lemma CnOfLetter(c: char)
    requires c != ','
    ensures ExtractCn("CN=" + [c]) == Some([c])
  {
    var dn := "CN=" + [c];
    assert dn[0] == 'C' && dn[1] == 'N' && dn[2] == '=' && dn[3..] == [c];
    assert [c][1..] == "";
    assert UpToComma([c]) == [c];
  }

  lemma OnlyA(dir: LdapMembers.Directory, dn: string)
    requires dir.groupNames == {"A"} && dir.Raw("CN=A") == ["CN=B"] && dir.Reachable("CN=A", dn)
    ensures dn == "CN=A"
  {
    NamesOfListsB();
    var path :| dir.IsPath(path) && path[0] == "CN=A" && path[|path| - 1] == dn;
    assert !dir.Edge("CN=A", "CN=B");
    assert |path| > 1 ==> dir.Edge(path[0], path[1]);
  }

  /** So the second synchronisation need not be quiet: when B is found while A is expanded, the
      user that B lists may or may not become a member of A. */
  lemma NewSubgroupMattersLater(accounts: LdapResolver.Accounts)
    requires accounts.FindUser("u").Some? && accounts.FindUser("B").None?
    ensures !SameReachable(accounts, "CN=A", ListsB(["CN=u"]), ListsB(["CN=u"]).Learned({"B"}))
  {
    var dir, id := ListsB(["CN=u"]), accounts.FindUser("u").value.id;
    var more := dir.Learned({"B"});
    NamesOfListsB();
    assert more.Edge("CN=A", "CN=B");
    assert more.IsPath(["CN=A", "CN=B"]) && more.Reachable("CN=A", "CN=B");
    assert "CN=u" in more.Raw("CN=B") && NamesAccount(accounts, "CN=u", id);
    assert IsAccountOf(more, accounts, "CN=B", id) && IsReachableAccount(more, accounts, "CN=A", id);
    forall dn | dir.Reachable("CN=A", dn) ensures !IsAccountOf(dir, accounts, dn, id) {
      OnlyA(dir, dn);
      assert !NamesAccount(accounts, "CN=B", id);
    }
  }

  /** ---- two whole synchronisations ---- */

  /** The names of the groups that a synchronisation creates. */
  ghost function CreatedNames(env: LdapSync.Env, s0: LdapSync.Sync): set<string> {
    set p | p in env.desired && p !in s0.groupsByPath :: env.created(p).name
  }

  ghost function KnownNames(s: LdapSync.Sync): set<string> {
    set p | p in s.groupsByPath :: s.groupsByPath[p].name
  }

  /** Keycloak names a new group as it was asked to and gives it an id of its own. */
  function NewGroup(path: string): Group {
    Group("new " + path, if path == "" then "" else path[1..], path)
  }

  const GROUP_A := Group("1", "A", "/A")
  const ROOTS: map<string, string> := map["/A" := "CN=A", "/B" := "CN=B"]

  /** Before the first synchronisation only A is known. */
  function OnlyAKnown(): LdapSync.Sync {
    LdapSync.Sync(map["/A" := LdapSync.Begun, "/B" := LdapSync.Begun], map["/A" := GROUP_A], map[], [], map["/A" := GROUP_A], false)
  }

  function EnvOf(a: Work, b: Work): LdapSync.Env {
    LdapSync.Env(map["/A" := a.batch.members, "/B" := b.batch.members], NewGroup)
  }

  lemma NewGroupsDiffer(p: string, q: string)
    ensures NewGroup(p).id == NewGroup(q).id ==> p == q
    ensures NewGroup(p).id != GROUP_A.id
    ensures NewGroup("/B").name == "B"
  {
    var x, y := "new " + p, "new " + q;
    assert x[4..] == p && y[4..] == q;
    assert "/B"[1..] == "B";
  }

  lemma OnlyAKnownIsUsable(env: LdapSync.Env)
    requires env.desired.Keys == ROOTS.Keys && env.created == NewGroup
    ensures LdapSync.Usable(env, OnlyAKnown()) && LdapSync.Ready(env, OnlyAKnown())
    ensures CreatedNames(env, OnlyAKnown()) == {"B"} && KnownNames(OnlyAKnown()) == {"A"}
  {
    forall p, q ensures env.created(p).id == env.created(q).id ==> p == q {
      NewGroupsDiffer(p, q);
    }
    forall p ensures env.created(p).id != GROUP_A.id {
      NewGroupsDiffer(p, p);
    }
    NewGroupsDiffer("/B", "/B");
    var s := OnlyAKnown();
    assert "/A" in s.groupsByPath && "/B" in env.desired && "/B" !in s.groupsByPath;
  }

  /** After a finished first synchronisation both groups are known. */
  lemma BothKnown(env: LdapSync.Env, order: seq<string>, f: LdapSync.Sync)
    requires env.desired.Keys == ROOTS.Keys && env.created == NewGroup
    requires LdapSync.Runs(env, OnlyAKnown(), order, f) && LdapSync.Finished(f)
    ensures f.groupsByPath == map["/A" := GROUP_A, "/B" := NewGroup("/B")] && KnownNames(f) == {"A", "B"}
  {
    hide LdapSync.Usable, LdapSync.Runs, LdapSync.Finished;
    OnlyAKnownIsUsable(env);
    LdapSync.FinishedKnows(env, OnlyAKnown(), order, f);
    NewGroupsDiffer("/B", "/B");
    assert f.groupsByPath.Keys == {"/A", "/B"};
    assert f.groupsByPath["/A"] == GROUP_A && f.groupsByPath["/B"] == NewGroup("/B");
  }

  function NextStart(f: LdapSync.Sync): LdapSync.Sync {
    LdapSync.Sync(map["/A" := LdapSync.Begun, "/B" := LdapSync.Begun], f.groupsByPath, f.memberCache, [], f.keycloakGroups, false)
  }

  lemma BothKnownAreDistinct(env: LdapSync.Env, s: LdapSync.Sync)
    requires env.created == NewGroup && s.groupsByPath == map["/A" := GROUP_A, "/B" := NewGroup("/B")]
    ensures LdapSync.DistinctIds(env, s)
  {
    hide NewGroup;
    forall p, q ensures env.created(p).id == env.created(q).id ==> p == q {
      NewGroupsDiffer(p, q);
    }
    forall p ensures env.created(p).id != GROUP_A.id {
      NewGroupsDiffer(p, p);
    }
    assert s.groupsByPath.Keys == {"/A", "/B"} && env.created("/B") == NewGroup("/B");
  }

  lemma NextStartIsUsable(env2: LdapSync.Env, f: LdapSync.Sync)
    requires env2.desired.Keys == ROOTS.Keys && env2.created == NewGroup
    requires f.groupsByPath == map["/A" := GROUP_A, "/B" := NewGroup("/B")]
    ensures LdapSync.Usable(env2, NextStart(f)) && LdapSync.Ready(env2, NextStart(f)) && LdapSync.Follows(env2, NextStart(f), f)
  {
    hide NewGroup, LdapSync.DistinctIds;
    BothKnownAreDistinct(env2, NextStart(f));
  }

  /** The works of a synchronisation of both groups that knows the groups of `dir` and learns
      `names`, late. */
  lemma BothWorks(dir: LdapMembers.Directory, accounts: LdapResolver.Accounts, names: set<string>) returns (a: Work, b: Work)
    requires accounts.Consistent() && AreNoUsers(accounts, dir.groupNames + names)
    ensures Derived(EnvOf(a, b), ROOTS, dir, accounts, map["/A" := a, "/B" := b])
    ensures Learns(accounts, "CN=A", dir, names, a) && Learns(accounts, "CN=B", dir, names, b)
    ensures forall id :: IsVisitedAccount(dir, accounts, a.run.visited, id) <==> IsReachableAccount(dir, accounts, "CN=A", id)
  {
    hide IsWork, IsReachableAccount, IsVisitedAccount;
    var ignored;
    a, ignored := LateAndEarlyWork(dir, accounts, "CN=A", names);
    b, ignored := LateAndEarlyWork(dir, accounts, "CN=B", names);
    forall id ensures IsVisitedAccount(dir, accounts, a.run.visited, id) <==> IsReachableAccount(dir, accounts, "CN=A", id) {
      ResolvedMembers(dir, accounts, "CN=A", a, id);
    }
    var works := map["/A" := a, "/B" := b];
    forall p | p in ROOTS ensures IsWork(dir, accounts, ROOTS[p], works[p]) && EnvOf(a, b).desired[p] == works[p].batch.members {
    }
  }

  lemma FirstOfTwo(accounts: LdapResolver.Accounts)
    returns (env: LdapSync.Env, a: Work, b: Work, order: seq<string>, f: LdapSync.Sync)
    requires accounts.Consistent() && accounts.FindUser("A").None? && accounts.FindUser("B").None?
    ensures var (s0, dir) := (OnlyAKnown(), ListsB(["CN=u"]));
      && env == EnvOf(a, b) && Derived(env, ROOTS, dir, accounts, map["/A" := a, "/B" := b])
      && a.run.dir.groupNames == b.run.dir.groupNames == {"A", "B"} == dir.groupNames + CreatedNames(env, s0)
      && LdapSync.Usable(env, s0) && LdapSync.Runs(env, s0, order, f) && LdapSync.Finished(f)
      && (forall id :: IsVisitedAccount(dir, accounts, a.run.visited, id) <==> IsReachableAccount(dir, accounts, "CN=A", id))
    ensures f.groupsByPath == map["/A" := GROUP_A, "/B" := NewGroup("/B")] && KnownNames(f) == {"A", "B"}
  {
    hide IsWork, IsVisitedAccount, IsReachableAccount, LdapSync.Usable, LdapSync.Runs, LdapSync.Ready, LdapSync.Finished;
    var dir := ListsB(["CN=u"]);
    a, b := BothWorks(dir, accounts, {"B"});
    env := EnvOf(a, b);
    OnlyAKnownIsUsable(env);
    order, f := LdapSync.EverySyncCanFinish(env, OnlyAKnown());
    BothKnown(env, order, f);
  }

  lemma SecondOfTwo(accounts: LdapResolver.Accounts, dir2: LdapMembers.Directory, f: LdapSync.Sync)
    returns (env2: LdapSync.Env, a: Work, b: Work, order: seq<string>, f2: LdapSync.Sync)
    requires accounts.Consistent() && accounts.FindUser("A").None? && accounts.FindUser("B").None?
    requires dir2.groupNames == {"A", "B"} && f.groupsByPath == map["/A" := GROUP_A, "/B" := NewGroup("/B")]
    ensures env2 == EnvOf(a, b) && Derived(env2, ROOTS, dir2, accounts, map["/A" := a, "/B" := b])
    ensures LdapSync.Usable(env2, NextStart(f)) && LdapSync.Follows(env2, NextStart(f), f)
    ensures LdapSync.Runs(env2, NextStart(f), order, f2) && LdapSync.Finished(f2)
    ensures forall id :: IsVisitedAccount(dir2, accounts, a.run.visited, id) <==> IsReachableAccount(dir2, accounts, "CN=A", id)
  {
    hide IsWork, IsVisitedAccount, IsReachableAccount, LdapSync.Usable, LdapSync.Runs, LdapSync.Ready, LdapSync.Finished;
    a, b := BothWorks(dir2, accounts, {});
    env2 := EnvOf(a, b);
    NextStartIsUsable(env2, f);
    order, f2 := LdapSync.EverySyncCanFinish(env2, NextStart(f));
  }

  /** Two whole synchronisations over one unchanged LDAP directory, from a cache that knows A
      only: each expansion learns in the end the name of the group that is created meanwhile,
      the second one starts with the groups the first has left, and it records edits. */
  lemma SecondSyncOfUnchangedDirectoryEdits(accounts: LdapResolver.Accounts)
    returns (env: LdapSync.Env, works: map<string, Work>, order: seq<string>, f: LdapSync.Sync,
             env2: LdapSync.Env, works2: map<string, Work>, order2: seq<string>, f2: LdapSync.Sync)
    requires accounts.Consistent() && Identified(accounts)
    requires accounts.FindUser("u").Some? && accounts.FindUser("A").None? && accounts.FindUser("B").None?
    ensures var (s0, dir) := (OnlyAKnown(), ListsB(["CN=u"]));
      && KnownNames(s0) == dir.groupNames && Derived(env, ROOTS, dir, accounts, works)
      && (forall p :: p in works ==> works[p].run.dir.groupNames == dir.groupNames + CreatedNames(env, s0))
      && LdapSync.Usable(env, s0) && LdapSync.Runs(env, s0, order, f) && LdapSync.Finished(f)
    ensures var (s1, dir2) := (NextStart(f), ListsB(["CN=u"]).Learned(KnownNames(f)));
      && dir2.groupNames == KnownNames(f) && Derived(env2, ROOTS, dir2, accounts, works2)
      && LdapSync.Usable(env2, s1) && LdapSync.Follows(env2, s1, f)
      && LdapSync.Runs(env2, s1, order2, f2) && LdapSync.Finished(f2)
    ensures f2.updates != []
  {
    hide Derived, IsVisitedAccount, IsReachableAccount, Identified, NextStart, NewGroup;
    hide LdapSync.Usable, LdapSync.Runs, LdapSync.Finished, LdapSync.Follows;
    var a, b, a2, b2;
    env, a, b, order, f := FirstOfTwo(accounts);
    OnlyAKnownIsUsable(env);
    works := map["/A" := a, "/B" := b];
    var dir := ListsB(["CN=u"]);
    var dir2 := dir.Learned(KnownNames(f));
    assert dir2 == dir.Learned({"B"});
    env2, a2, b2, order2, f2 := SecondOfTwo(accounts, dir2, f);
    works2 := map["/A" := a2, "/B" := b2];
    SecondSyncIsQuietIff(accounts, ROOTS, dir, works, env, OnlyAKnown(), order, f, dir2, works2, env2, NextStart(f), order2, f2);
    NewSubgroupMattersLater(accounts);
    assert "/A" in ROOTS && works["/A"] == a && works2["/A"] == a2;
  }

  /** And a name learned that is listed in a reachable group need not matter: when B has no
      members, the same accounts are reachable with it and without it. */
  lemma NewSubgroupWithoutMembersIsHarmless(accounts: LdapResolver.Accounts)
    requires accounts.FindUser("B").None?
    ensures !LdapMembers.Unaffected(ListsB([]), ListsB([]).Learned({"B"}), "CN=A")
    ensures SameReachable(accounts, "CN=A", ListsB([]), ListsB([]).Learned({"B"}))
  {
    var dir := ListsB([]);
    var more := dir.Learned({"B"});
    NamesOfListsB();
    assert dir.IsPath(["CN=A"]) && dir.Reachable("CN=A", "CN=A") && "CN=B" in dir.Raw("CN=A");
    forall id, dn ensures !IsAccountOf(dir, accounts, dn, id) && !IsAccountOf(more, accounts, dn, id) {
      assert forall raw :: raw in dir.Raw(dn) ==> raw == "CN=B";
    }
  }
}
