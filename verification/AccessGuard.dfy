/** The two access guards with the decision cache they share, and the access map they decide
    from.  Checks, store writes and refreshes of the map interleave at their `await`s. */
module AccessGuard {
  import opened Types
  import AppPositions

  type AccessMap = map<string, set<string>>

  /** What does not change during a run: the groups in a user's token, and the admin groups. */
  datatype Env = Env(ldapGroups: string -> set<string>, adminGroups: set<string>)

  const SUPER_ADMIN := "/role-globaladministrator"

  predicate IsAdmin(env: Env, username: string) {
    SUPER_ADMIN in env.ldapGroups(username) || env.adminGroups * env.ldapGroups(username) != {}
  }

  /** The decision without any cache. */
  predicate HasAccess(env: Env, accessMap: AccessMap, username: string, domain: string) {
    IsAdmin(env, username) || (domain in accessMap && env.ldapGroups(username) * accessMap[domain] != {})
  }

  function CacheKey(username: string, domain: string): string {
    username + "::" + domain
  }

  /** `updateAppAccessMap`: the access groups of every stored configuration. */
  function AccessOf(docs: AppPositions.Store): AccessMap {
    map name | name in docs :: docs[name].accessGroups
  }

  /** A check that waits for the admin groups. */
  datatype Check = Check(username: string, domain: string)

  /** `refreshes` are the maps that have been read from the store and wait to be assigned. */
  datatype Service = Service(
    docs: AppPositions.Store,
    accessMap: AccessMap,
    cache: map<string, bool>,
    checks: seq<Check>,
    refreshes: seq<AccessMap>)

  datatype Step =
    | Ask(username: string, domain: string)     // canActivate of either guard up to its await
    | Decide(i: nat, evicted: set<string>)      // the admin groups have arrived
    | Expire(key: string)
    | Write(after: AppPositions.Store)          // any write to the store, with what it leaves
    | ReadStore                                 // updateAppAccessMap: find has returned
    | Assign(i: nat)                            // … and its map is assigned

  predicate Enabled(s: Service, st: Step) {
    match st
    case Decide(i, _) => i < |s.checks|
    case Assign(i) => i < |s.refreshes|
    case _ => true
  }

  function Drop<T>(xs: seq<T>, i: nat): seq<T>
    requires i < |xs|
  {
    xs[..i] + xs[i + 1..]
  }

  /** A cached decision is answered at once; otherwise the check waits. */
  function AskFor(s: Service, username: string, domain: string): Service {
    if CacheKey(username, domain) in s.cache then s
    else s.(checks := s.checks + [Check(username, domain)])
  }

  function DecideCheck(env: Env, s: Service, i: nat, evicted: set<string>): Service
    requires i < |s.checks|
  {
    var Check(username, domain) := s.checks[i];
    s.(checks := Drop(s.checks, i),
       cache := (s.cache - evicted)[CacheKey(username, domain) := HasAccess(env, s.accessMap, username, domain)])
  }

  /** The assignment and the event that clears the cache are one stretch. */
  function AssignMap(s: Service, i: nat): Service
    requires i < |s.refreshes|
  {
    s.(accessMap := s.refreshes[i], cache := map[], refreshes := Drop(s.refreshes, i))
  }

  function Next(env: Env, s: Service, st: Step): Service
    requires Enabled(s, st)
  {
    match st
    case Ask(u, d) => AskFor(s, u, d)
    case Decide(i, evicted) => DecideCheck(env, s, i, evicted)
    case Expire(key) => s.(cache := s.cache - {key})
    case Write(after) => s.(docs := after)
    case ReadStore => s.(refreshes := s.refreshes + [AccessOf(s.docs)])
    case Assign(i) => AssignMap(s, i)
  }

  ghost predicate Runs(env: Env, s: Service, steps: seq<Step>, f: Service)
    decreases |steps|
  {
    if steps == [] then f == s
    else Enabled(s, steps[0]) && Runs(env, Next(env, s, steps[0]), steps[1..], f)
  }

  /** The groups that let their members use an app. */
  ghost predicate LetsIn(env: Env, accessMap: AccessMap, domain: string, g: string) {
    g == "/role-globaladministrator" || g in env.adminGroups || (domain in accessMap && g in accessMap[domain])
  }

  /** Who has access: whoever is in the super admins' group, in an admin group, or in one of the
      access groups of that very app. */
  lemma HasAccessMeans(env: Env, accessMap: AccessMap, username: string, domain: string)
    ensures HasAccess(env, accessMap, username, domain)
      <==> exists g :: g in env.ldapGroups(username) && LetsIn(env, accessMap, domain, g)
  {
    var groups := env.ldapGroups(username);
    if g :| g in groups && LetsIn(env, accessMap, domain, g) {
      if g in env.adminGroups {
        assert g in env.adminGroups * groups;
      } else if g != SUPER_ADMIN {
        assert g in groups * accessMap[domain];
      }
    } else {
      forall g | g in groups
        ensures !LetsIn(env, accessMap, domain, g)
      {}
    }
  }

  /** With a map that is current, the access groups are those of the app's configuration. */
  lemma CurrentAccessMeans(env: Env, docs: AppPositions.Store, username: string, domain: string)
    ensures HasAccess(env, AccessOf(docs), username, domain) <==>
      || "/role-globaladministrator" in env.ldapGroups(username)
      || (exists g :: g in env.ldapGroups(username) && g in env.adminGroups)
      || (domain in docs && exists g :: g in env.ldapGroups(username) && g in docs[domain].accessGroups)
  {
    HasAccessMeans(env, AccessOf(docs), username, domain);
    hide HasAccess;
    if HasAccess(env, AccessOf(docs), username, domain) {
      var g :| g in env.ldapGroups(username) && LetsIn(env, AccessOf(docs), domain, g);
    } else {
      assert forall g :: g in env.ldapGroups(username) ==> !LetsIn(env, AccessOf(docs), domain, g);
    }
  }

  /** A check is answered once, and its decision is cached, so that the same request is not checked
      again; of the other entries only those that make way are gone. */
  lemma DecisionIsCached(env: Env, s: Service, i: nat, evicted: set<string>)
    requires Enabled(s, Decide(i, evicted))
    ensures var (t, key) := (Next(env, s, Decide(i, evicted)), CacheKey(s.checks[i].username, s.checks[i].domain));
      && multiset(t.checks) == multiset(s.checks) - multiset{s.checks[i]} && |t.checks| == |s.checks| - 1
      && key in t.cache && t.cache[key] == HasAccess(env, s.accessMap, s.checks[i].username, s.checks[i].domain)
      && Next(env, t, Ask(s.checks[i].username, s.checks[i].domain)) == t
      && (forall k :: k != key ==> (k in t.cache <==> k in s.cache && k !in evicted) && (k in t.cache ==> t.cache[k] == s.cache[k]))
  {
    assert s.checks == s.checks[..i] + [s.checks[i]] + s.checks[i + 1..];
  }

  /** ---- keys ---- */

  /** Two requests with different users or domains that share a key, told from the texts: one
      user's name goes on where the other's ends, and the rest moves into the domain. */
  ghost predicate Overlap(u: string, d: string, v: string, e: string) {
    (v == u + ":" && d == ":" + e) || exists w :: v == u + "::" + w && d == w + "::" + e
  }

  lemma SharedKeyMeans(u: string, d: string, v: string, e: string)
    requires |u| <= |v|
    ensures CacheKey(u, d) == CacheKey(v, e) <==> (u == v && d == e) || Overlap(u, d, v, e)
  {
    if CacheKey(u, d) == CacheKey(v, e) {
      SharedKeyOverlaps(u, d, v, e);
    }
    if Overlap(u, d, v, e) {
      OverlapSharesKey(u, d, v, e);
    }
  }

  lemma SharedKeyOverlaps(u: string, d: string, v: string, e: string)
    requires |u| <= |v| && CacheKey(u, d) == CacheKey(v, e)
    ensures (u == v && d == e) || Overlap(u, d, v, e)
  {
    var k, n := CacheKey(u, d), |v| - |u|;
    assert k[..|u|] == u && k[|u| + 2..] == d;
    assert k[..|v|] == v && k[|v| + 2..] == e;
    if n == 1 {
      assert k[|v|] == k[|v| + 1] == ':';
      assert v == u + ":" && d == ":" + e;
    } else if n >= 2 {
      var w := v[|u| + 2..];
      assert v == u + "::" + w;
      assert d == w + "::" + e by {
        assert d == k[|u| + 2..|v|] + k[|v|..];
      }
    }
  }

  lemma OverlapSharesKey(u: string, d: string, v: string, e: string)
    requires Overlap(u, d, v, e)
    ensures CacheKey(u, d) == CacheKey(v, e)
  {
    if v == u + ":" && d == ":" + e {
      assert CacheKey(u, d) == u + "::" + (":" + e) == CacheKey(v, e);
    } else {
      var w :| v == u + "::" + w && d == w + "::" + e;
      assert CacheKey(u, d) == u + "::" + (w + "::" + e) == CacheKey(v, e);
    }
  }

  predicate Plain(text: string) { ':' !in text }

  /** So without a colon in the domains, or without one in the usernames, every key tells the
      user and the domain apart. */
  lemma KeysAreApart(u: string, d: string, v: string, e: string)
    requires (Plain(d) && Plain(e)) || (Plain(u) && Plain(v))
    requires CacheKey(u, d) == CacheKey(v, e)
    ensures u == v && d == e
  {
    if |u| <= |v| {
      SharedKeyMeans(u, d, v, e);
      OverlapHasColons(u, d, v, e);
    } else {
      SharedKeyMeans(v, e, u, d);
      OverlapHasColons(v, e, u, d);
    }
  }

  lemma OverlapHasColons(u: string, d: string, v: string, e: string)
    ensures Overlap(u, d, v, e) ==> !Plain(d) && !Plain(v)
  {
    if v == u + ":" && d == ":" + e {
      assert d[0] == ':' && v[|u|] == ':';
    } else if w :| v == u + "::" + w && d == w + "::" + e {
      assert d[|w|] == ':' && v[|u|] == ':';
    }
  }

  /** No two requests of these users for these domains share a key. */
  ghost predicate KeysApart(users: iset<string>, domains: iset<string>) {
    forall u, d, v, e :: u in users && v in users && d in domains && e in domains && CacheKey(u, d) == CacheKey(v, e) ==>
      u == v && d == e
  }

  lemma PlainNamesAreApart(users: iset<string>, domains: iset<string>)
    requires (forall u :: u in users ==> Plain(u)) || (forall d :: d in domains ==> Plain(d))
    ensures KeysApart(users, domains)
  {
    forall u, d, v, e | u in users && v in users && d in domains && e in domains && CacheKey(u, d) == CacheKey(v, e)
      ensures u == v && d == e
    {
      KeysAreApart(u, d, v, e);
    }
  }

  /** ---- the cache ---- */

  /** Only these users ask, and only for these domains. */
  ghost predicate AsksWithin(steps: seq<Step>, users: iset<string>, domains: iset<string>) {
    forall i :: 0 <= i < |steps| && steps[i].Ask? ==> steps[i].username in users && steps[i].domain in domains
  }

  /** What a request of one of these users for one of these domains is answered from the cache
      is the decision without a cache. */
  ghost predicate AllRight(env: Env, s: Service, users: iset<string>, domains: iset<string>) {
    forall u, d :: u in users && d in domains && CacheKey(u, d) in s.cache ==>
      s.cache[CacheKey(u, d)] == HasAccess(env, s.accessMap, u, d)
  }

  ghost predicate Inv(env: Env, s: Service, users: iset<string>, domains: iset<string>) {
    && (forall i :: 0 <= i < |s.checks| ==> s.checks[i].username in users && s.checks[i].domain in domains)
    && AllRight(env, s, users, domains)
  }

  lemma StepInv(env: Env, s: Service, st: Step, users: iset<string>, domains: iset<string>)
    requires KeysApart(users, domains) && Inv(env, s, users, domains) && Enabled(s, st)
    requires st.Ask? ==> st.username in users && st.domain in domains
    ensures Inv(env, Next(env, s, st), users, domains)
  {
    var t := Next(env, s, st);
    if st.Decide? {
      var Check(v, e) := s.checks[st.i];
      forall u, d | u in users && d in domains && CacheKey(u, d) in t.cache
        ensures t.cache[CacheKey(u, d)] == HasAccess(env, t.accessMap, u, d)
      {
        if CacheKey(u, d) == CacheKey(v, e) {
          assert u == v && d == e;
        }
      }
    }
  }

  /** In every interleaving of requests to both guards, expiries, evictions, store writes and
      refreshes, every cached decision is the uncached decision on the map in force. */
  lemma {:induction false} CacheIsTransparent(env: Env, s: Service, steps: seq<Step>, f: Service, users: iset<string>, domains: iset<string>)
    requires KeysApart(users, domains) && AsksWithin(steps, users, domains)
    requires Inv(env, s, users, domains) && Runs(env, s, steps, f)
    ensures Inv(env, f, users, domains)
    decreases |steps|
  {
    if steps != [] {
      StepInv(env, s, steps[0], users, domains);
      CacheIsTransparent(env, Next(env, s, steps[0]), steps[1..], f, users, domains);
    }
  }

  /** With two requests that share a key, one asks and the other is given its answer. */
  lemma SharedKeyConfuses(u: string, d: string, v: string, e: string) returns (env: Env, s: Service, f: Service)
    requires CacheKey(u, d) == CacheKey(v, e) && (u != v || d != e)
    ensures s.cache == map[] && s.checks == [] && Runs(env, s, [Ask(u, d), Decide(0, {})], f)
    ensures CacheKey(v, e) in f.cache && f.cache[CacheKey(v, e)] && !HasAccess(env, f.accessMap, v, e)
  {
    env := Env(x => if x == u then {"/g"} else {}, {});
    s := Service(map[], map[d := {"/g"}], map[], [], []);
    var steps := [Ask(u, d), Decide(0, {})];
    var s1 := Next(env, s, steps[0]);
    f := Next(env, s1, Decide(0, {}));
    assert steps[1..] == [Decide(0, {})] && steps[1..][1..] == [];
    assert Runs(env, f, [], f);
    assert Runs(env, s1, steps[1..], f);
    assert "/g" in env.ldapGroups(u) * s1.accessMap[d];
  }

  /** A service just started with some map and store. */
  ghost predicate Empty(s: Service) {
    s.cache == map[] && s.checks == []
  }

  /** Whatever the groups, the map, the store and the run are, every decision for these users
      and domains is right. */
  ghost predicate Transparent(users: iset<string>, domains: iset<string>) {
    forall env, s, steps, f :: RunOf(env, s, steps, f, users, domains) ==> AllRight(env, f, users, domains)
  }

  ghost predicate RunOf(env: Env, s: Service, steps: seq<Step>, f: Service, users: iset<string>, domains: iset<string>) {
    Empty(s) && AsksWithin(steps, users, domains) && Runs(env, s, steps, f)
  }

  /** All decisions in every run of these users and domains are right exactly when no two of
      their requests share a key. */
  lemma TransparentIffKeysApart(users: iset<string>, domains: iset<string>)
    ensures Transparent(users, domains) <==> KeysApart(users, domains)
  {
    if KeysApart(users, domains) {
      forall env, s, steps, f | RunOf(env, s, steps, f, users, domains)
        ensures AllRight(env, f, users, domains)
      {
        CacheIsTransparent(env, s, steps, f, users, domains);
      }
    } else {
      var u, d, v, e :| u in users && v in users && d in domains && e in domains && CacheKey(u, d) == CacheKey(v, e) && (u != v || d != e);
      SharedKeyIsNotTransparent(users, domains, u, d, v, e);
    }
  }

  lemma SharedKeyIsNotTransparent(users: iset<string>, domains: iset<string>, u: string, d: string, v: string, e: string)
    requires u in users && v in users && d in domains && e in domains
    requires CacheKey(u, d) == CacheKey(v, e) && (u != v || d != e)
    ensures !Transparent(users, domains)
  {
    var env, s, f := SharedKeyConfuses(u, d, v, e);
    assert RunOf(env, s, [Ask(u, d), Decide(0, {})], f, users, domains);
    assert !AllRight(env, f, users, domains);
  }

  /** What a request is answered at once, when it finds a cached decision: with colon-free
      usernames for every domain, and with colon-free domains for every user. */
  lemma CachedAnswerIsCurrent(env: Env, s: Service, steps: seq<Step>, f: Service, u: string, d: string)
    requires Empty(s) && Runs(env, s, steps, f)
    requires (Plain(u) && forall i :: 0 <= i < |steps| && steps[i].Ask? ==> Plain(steps[i].username)) ||
             (Plain(d) && forall i :: 0 <= i < |steps| && steps[i].Ask? ==> Plain(steps[i].domain))
    ensures CacheKey(u, d) in f.cache ==> f.cache[CacheKey(u, d)] == HasAccess(env, f.accessMap, u, d)
  {
    var all, plain := iset x: string | 0 <= |x|, iset x: string | Plain(x);
    if Plain(u) && forall i :: 0 <= i < |steps| && steps[i].Ask? ==> Plain(steps[i].username) {
      PlainNamesAreApart(plain, all);
      CacheIsTransparent(env, s, steps, f, plain, all);
    } else {
      PlainNamesAreApart(all, plain);
      CacheIsTransparent(env, s, steps, f, all, plain);
    }
  }

  /** A colon in a domain is enough: the parameter of a URL makes two users share a key. */
  lemma ColonInDomainConfusesUsers()
    ensures CacheKey("a::b", "c") == CacheKey("a", "b::c")
    ensures !KeysApart(iset{"a", "a::b"}, iset{"c", "b::c"})
  {
    assert CacheKey("a", "b::c") == "a::b::c" == CacheKey("a::b", "c");
  }

  /** ---- is the map the store's? ---- */

  /** A refresh is never overtaken by a later one. */
  ghost predicate InOrder(steps: seq<Step>) {
    forall i :: 0 <= i < |steps| && steps[i].Assign? ==> steps[i].i == 0
  }

  /** The map that is in force once all running refreshes are through in order. */
  function Eventually(s: Service): AccessMap {
    if s.refreshes == [] then s.accessMap else s.refreshes[|s.refreshes| - 1]
  }

  /** Some read of the store comes after the last write.  Insert, update and delete arrange for
      one; patching a single field does not. */
  ghost predicate ReadAfterLastWrite(steps: seq<Step>) {
    exists r :: 0 <= r < |steps| && steps[r].ReadStore? && forall i :: r < i < |steps| ==> !steps[i].Write?
  }

  lemma {:induction false} NoWriteKeepsCurrent(env: Env, s: Service, steps: seq<Step>, f: Service)
    requires Runs(env, s, steps, f) && InOrder(steps) && Eventually(s) == AccessOf(s.docs)
    requires forall i :: 0 <= i < |steps| ==> !steps[i].Write?
    ensures Eventually(f) == AccessOf(f.docs)
    decreases |steps|
  {
    if steps != [] {
      NoWriteKeepsCurrent(env, Next(env, s, steps[0]), steps[1..], f);
    }
  }

  /** When refreshes are assigned in the order in which they read, and one read follows the
      last write, the map equals the store's access groups as soon as no refresh is running. */
  lemma {:induction false} InOrderRefreshesAreCurrent(env: Env, s: Service, steps: seq<Step>, f: Service)
    requires Runs(env, s, steps, f) && InOrder(steps) && ReadAfterLastWrite(steps)
    ensures f.refreshes == [] ==> f.accessMap == AccessOf(f.docs)
    decreases |steps|
  {
    var r :| 0 <= r < |steps| && steps[r].ReadStore? && forall i :: r < i < |steps| ==> !steps[i].Write?;
    if r == 0 {
      NoWriteKeepsCurrent(env, Next(env, s, steps[0]), steps[1..], f);
    } else {
      assert steps[1..][r - 1].ReadStore?;
      InOrderRefreshesAreCurrent(env, Next(env, s, steps[0]), steps[1..], f);
    }
  }

  /** Out of order, the map stays that of an older store although a read followed the last
      write and nothing is running any more. */
  lemma OvertakenRefreshLeavesOldMap(env: Env, s: Service, c: AppPositions.Config)
    requires s == Service(map[], map[], map[], [], [])
    ensures exists f ::
      Runs(env, s, [ReadStore, Write(map["mail" := c]), ReadStore, Assign(1), Assign(0)], f) &&
      f.refreshes == [] && f.accessMap != AccessOf(f.docs)
  {
    var after := map["mail" := c];
    var steps := [ReadStore, Write(after), ReadStore, Assign(1), Assign(0)];
    var s1 := Next(env, s, steps[0]);
    var s2 := Next(env, s1, steps[1]);
    var s3 := Next(env, s2, steps[2]);
    var s4 := Next(env, s3, steps[3]);
    var s5 := Next(env, s4, steps[4]);
    assert steps[1..] == [Write(after), ReadStore, Assign(1), Assign(0)];
    assert steps[1..][1..] == [ReadStore, Assign(1), Assign(0)];
    assert steps[1..][1..][1..] == [Assign(1), Assign(0)];
    assert steps[1..][1..][1..][1..] == [Assign(0)];
    assert Runs(env, s5, [], s5);
    assert Runs(env, s4, [Assign(0)], s5);
    assert Runs(env, s3, [Assign(1), Assign(0)], s5);
    assert Runs(env, s2, [ReadStore, Assign(1), Assign(0)], s5);
    assert Runs(env, s1, steps[1..], s5);
    assert Runs(env, s, steps, s5);
    assert s5.accessMap == AccessOf(map[]) && s5.refreshes == [];
    assert "mail" in AccessOf(s5.docs) && "mail" !in s5.accessMap;
  }

  /** ---- exactly when the map is current ---- */

  /** Where things come from, by position in the schedule: the read that the map in force was
      built from (-1 for the map at the start), the reads still pending, the last write. */
  datatype Trail = Trail(source: int, pending: seq<int>, lastWrite: int)

  function NextTrail(st: Step, at: int, t: Trail): Trail {
    match st
    case Write(_) => t.(lastWrite := at)
    case ReadStore => t.(pending := t.pending + [at])
    case Assign(i) => if i < |t.pending| then t.(source := t.pending[i], pending := Drop(t.pending, i)) else t
    case _ => t
  }

  function TrailOf(steps: seq<Step>, at: int, t: Trail): Trail
    decreases |steps|
  {
    if steps == [] then t else TrailOf(steps[1..], at + 1, NextTrail(steps[0], at, t))
  }

  const START := Trail(-1, [], -2)

  /** The refresh assigned last, if any, read the store after the last write. */
  predicate LastAssignedReadAfterLastWrite(steps: seq<Step>) {
    var t := TrailOf(steps, 0, START);
    t.source > t.lastWrite
  }

  /** The same schedule, with other contents written. */
  function Rewritten(steps: seq<Step>, contents: seq<AppPositions.Store>): (r: seq<Step>)
    requires |contents| == |steps|
    ensures |r| == |steps|
    decreases |steps|
  {
    if steps == [] then []
    else [if steps[0].Write? then Write(contents[0]) else steps[0]] + Rewritten(steps[1..], contents[1..])
  }

  /** What the trail tells about the maps. */
  ghost predicate TrailOk(s: Service, t: Trail) {
    && |t.pending| == |s.refreshes|
    && (t.source > t.lastWrite ==> s.accessMap == AccessOf(s.docs))
    && (forall i :: 0 <= i < |t.pending| && t.pending[i] > t.lastWrite ==> s.refreshes[i] == AccessOf(s.docs))
  }

  lemma TrailStepIsRight(env: Env, s: Service, st: Step, at: int, t: Trail)
    requires Enabled(s, st) && TrailOk(s, t)
    requires t.source < at && t.lastWrite < at && forall i :: 0 <= i < |t.pending| ==> t.pending[i] < at
    ensures TrailOk(Next(env, s, st), NextTrail(st, at, t))
  {
    hide HasAccess, IsAdmin, CacheKey, AccessOf;
  }

  lemma {:induction false} TrailIsRight(env: Env, s: Service, steps: seq<Step>, f: Service, at: int, t: Trail)
    requires Runs(env, s, steps, f) && TrailOk(s, t)
    requires t.source < at && t.lastWrite < at && forall i :: 0 <= i < |t.pending| ==> t.pending[i] < at
    ensures TrailOk(f, TrailOf(steps, at, t))
    decreases |steps|
  {
    hide TrailOk, Next;
    if steps != [] {
      TrailStepIsRight(env, s, steps[0], at, t);
      TrailIsRight(env, Next(env, s, steps[0]), steps[1..], f, at + 1, NextTrail(steps[0], at, t));
    }
  }

  /** What a schedule needs of a state to take its steps. */
  ghost predicate SameShape(s: Service, t: Service) {
    s.cache.Keys == t.cache.Keys && s.checks == t.checks && |s.refreshes| == |t.refreshes|
  }

  /** `docs0` is what the store holds before the last write, `docs1` what it holds after it. */
  ghost predicate Before(t: Service, trail: Trail, docs0: AppPositions.Store) {
    && t.docs == docs0 && |trail.pending| == |t.refreshes|
    && t.accessMap == AccessOf(docs0)
    && forall i :: 0 <= i < |t.refreshes| ==> t.refreshes[i] == AccessOf(docs0)
  }

  /** After the last write, what was read before it is still the old access. */
  ghost predicate After(t: Service, trail: Trail, docs0: AppPositions.Store, docs1: AppPositions.Store) {
    && t.docs == docs1 && |trail.pending| == |t.refreshes|
    && (trail.source < trail.lastWrite ==> t.accessMap == AccessOf(docs0))
    && forall i :: 0 <= i < |t.refreshes| && trail.pending[i] < trail.lastWrite ==> t.refreshes[i] == AccessOf(docs0)
  }

  predicate HasWrite(steps: seq<Step>) {
    steps != [] && (steps[0].Write? || HasWrite(steps[1..]))
  }

  /** The two steps differ in what they write, if at all. */
  ghost predicate Alike(st: Step, mine: Step) {
    mine == st || (st.Write? && mine.Write?)
  }

  lemma StepsAlike(env: Env, s: Service, t: Service, st: Step, mine: Step)
    requires SameShape(s, t) && Enabled(s, st) && Alike(st, mine)
    ensures Enabled(t, mine) && SameShape(Next(env, s, st), Next(env, t, mine))
  {
    if st.Decide? {
      var key := CacheKey(s.checks[st.i].username, s.checks[st.i].domain);
      assert Next(env, s, st).cache.Keys == s.cache.Keys - st.evicted + {key};
      assert Next(env, t, mine).cache.Keys == t.cache.Keys - st.evicted + {key};
    }
  }

  ghost predicate BeforeOrAfter(write: bool, t: Service, trail: Trail, docs0: AppPositions.Store, docs1: AppPositions.Store) {
    if write then Before(t, trail, docs0) else After(t, trail, docs0, docs1)
  }

  lemma LastWriteStep(env: Env, t: Service, steps: seq<Step>, written: AppPositions.Store, mine: Step, at: int, trail: Trail,
                      docs0: AppPositions.Store, docs1: AppPositions.Store)
    requires steps != [] && Alike(steps[0], mine) && Enabled(t, mine) && (mine.Write? ==> mine.after == written)
    requires written == if HasWrite(steps[1..]) then docs0 else docs1
    requires BeforeOrAfter(HasWrite(steps), t, trail, docs0, docs1)
    requires trail.source < at && trail.lastWrite < at && forall i :: 0 <= i < |trail.pending| ==> trail.pending[i] < at
    ensures BeforeOrAfter(HasWrite(steps[1..]), Next(env, t, mine), NextTrail(steps[0], at, trail), docs0, docs1)
  {
    hide HasAccess, IsAdmin, CacheKey, AccessOf;
  }

  /** A run of the schedule that writes something new only in its last write. */
  lemma {:induction false} LastWriteIsNew(env: Env, s: Service, steps: seq<Step>, f: Service, t: Service, at: int, trail: Trail,
                                          docs0: AppPositions.Store, docs1: AppPositions.Store)
    returns (contents: seq<AppPositions.Store>, g: Service)
    requires Runs(env, s, steps, f) && SameShape(s, t)
    requires BeforeOrAfter(HasWrite(steps), t, trail, docs0, docs1)
    requires trail.source < at && trail.lastWrite < at && forall i :: 0 <= i < |trail.pending| ==> trail.pending[i] < at
    ensures |contents| == |steps| && Runs(env, t, Rewritten(steps, contents), g)
    ensures After(g, TrailOf(steps, at, trail), docs0, docs1)
    decreases |steps|
  {
    hide Before, After, SameShape, Next, HasAccess, IsAdmin, CacheKey, AccessOf;
    if steps == [] {
      contents, g := [], t;
    } else {
      var st := steps[0];
      var written := if HasWrite(steps[1..]) then docs0 else docs1;
      var mine := if st.Write? then Write(written) else st;
      var next := NextTrail(st, at, trail);
      StepsAlike(env, s, t, st, mine);
      var s1, t1 := Next(env, s, st), Next(env, t, mine);
      LastWriteStep(env, t, steps, written, mine, at, trail, docs0, docs1);
      var rest;
      rest, g := LastWriteIsNew(env, s1, steps[1..], f, t1, at + 1, next, docs0, docs1);
      contents := [written] + rest;
      assert contents[1..] == rest;
      assert Rewritten(steps, contents)[1..] == Rewritten(steps[1..], rest);
    }
  }

  lemma {:induction false} NoWriteKeepsTrail(steps: seq<Step>, at: int, t: Trail)
    requires !HasWrite(steps) && at >= 0 && t.source >= -1 && t.lastWrite == -2
    requires forall i :: 0 <= i < |t.pending| ==> t.pending[i] >= -1
    ensures TrailOf(steps, at, t).source > TrailOf(steps, at, t).lastWrite
    decreases |steps|
  {
    if steps != [] {
      var next := NextTrail(steps[0], at, t);
      NoWriteKeepsTrail(steps[1..], at + 1, next);
    }
  }

  /** Whatever the writes of the schedule write, the map in force at its end is the store's. */
  ghost predicate AlwaysCurrent(env: Env, s: Service, steps: seq<Step>) {
    forall contents, g :: EndsIn(env, s, steps, contents, g) ==> g.accessMap == AccessOf(g.docs)
  }

  ghost predicate EndsIn(env: Env, s: Service, steps: seq<Step>, contents: seq<AppPositions.Store>, g: Service) {
    |contents| == |steps| && Runs(env, s, Rewritten(steps, contents), g)
  }

  /** For every schedule that starts with a current map: the map in force at its end is that
      of the store, whatever the writes write, exactly when the refresh assigned last read the
      store after the last write. */
  lemma MapIsCurrentIff(env: Env, s: Service, steps: seq<Step>, f: Service)
    requires s.refreshes == [] && s.accessMap == AccessOf(s.docs) && Runs(env, s, steps, f)
    ensures AlwaysCurrent(env, s, steps) <==> LastAssignedReadAfterLastWrite(steps)
  {
    if LastAssignedReadAfterLastWrite(steps) {
      forall contents, g | EndsIn(env, s, steps, contents, g)
        ensures g.accessMap == AccessOf(g.docs)
      {
        SameTrail(steps, contents, 0, START);
        TrailIsRight(env, s, Rewritten(steps, contents), g, 0, START);
      }
    } else {
      OldMapIsPossible(env, s, steps, f);
    }
  }

  /** Some other store has other access groups. */
  lemma OtherStore(docs: AppPositions.Store) returns (other: AppPositions.Store)
    ensures AccessOf(other) != AccessOf(docs)
  {
    if docs == map[] {
      other := map["mail" := AppPositions.Config(1, {})];
      assert "mail" in AccessOf(other);
    } else {
      other := map[];
      var n :| n in docs;
      assert n in AccessOf(docs);
    }
  }

  lemma OldMapIsPossible(env: Env, s: Service, steps: seq<Step>, f: Service)
    requires s.refreshes == [] && s.accessMap == AccessOf(s.docs) && Runs(env, s, steps, f)
    requires !LastAssignedReadAfterLastWrite(steps)
    ensures !AlwaysCurrent(env, s, steps)
  {
    if !HasWrite(steps) {
      NoWriteKeepsTrail(steps, 0, START);
      assert false;
    }
    var docs1 := OtherStore(s.docs);
    var contents, g := LastWriteIsNew(env, s, steps, f, s, 0, START, s.docs, docs1);
    SourceIsNoWrite(steps, 0, START);
    assert EndsIn(env, s, steps, contents, g) && g.accessMap == AccessOf(s.docs) && g.docs == docs1;
  }

  lemma {:induction false} SameTrail(steps: seq<Step>, contents: seq<AppPositions.Store>, at: int, t: Trail)
    requires |contents| == |steps|
    ensures TrailOf(Rewritten(steps, contents), at, t) == TrailOf(steps, at, t)
    decreases |steps|
  {
    if steps != [] {
      var next := NextTrail(steps[0], at, t);
      assert Rewritten(steps, contents)[1..] == Rewritten(steps[1..], contents[1..]);
      SameTrail(steps[1..], contents[1..], at + 1, next);
    }
  }

  lemma {:induction false} SourceIsNoWrite(steps: seq<Step>, at: int, t: Trail)
    requires t.source != t.lastWrite && t.source < at && t.lastWrite < at
    requires forall i :: 0 <= i < |t.pending| ==> t.pending[i] != t.lastWrite && t.pending[i] < at
    ensures TrailOf(steps, at, t).source != TrailOf(steps, at, t).lastWrite
    decreases |steps|
  {
    if steps != [] {
      var next := NextTrail(steps[0], at, t);
      SourceIsNoWrite(steps[1..], at + 1, next);
    }
  }

  /** ---- the guards ---- */

  datatype Verdict = Pass | Unauthorized | Forbidden | Undecided

  class Guard {
    const env: Env
    var docs: AppPositions.Store
    var accessMap: AccessMap
    var cache: map<string, bool>
    var checks: seq<Check>
    var refreshes: seq<AccessMap>

    ghost function St(): Service
      reads this
    {
      Service(docs, accessMap, cache, checks, refreshes)
    }

    constructor (env: Env, docs: AppPositions.Store)
      ensures this.env == env && St() == Service(docs, map[], map[], [], [])
      ensures Empty(St())
    {
      this.env, this.docs := env, docs;
      accessMap, cache, checks, refreshes := map[], map[], [], [];
    }

    /** `canActivate` of `AccessGuard` up to its `await`: public routes and routes without a domain pass, a
        request without a user is refused, and a cached decision is final. */
    method CanActivate(isPublic: bool, domain: Option<string>, user: Option<string>) returns (v: Verdict)
      modifies this
      ensures isPublic || domain.None? || domain == Some("") ==> v == Pass && St() == old(St())
      ensures !isPublic && domain.Some? && domain.value != "" && user.None? ==> v == Unauthorized && St() == old(St())
      ensures !isPublic && domain.Some? && domain.value != "" && user.Some? ==>
        St() == AskFor(old(St()), user.value, domain.value) &&
        v == (if CacheKey(user.value, domain.value) in cache
              then if cache[CacheKey(user.value, domain.value)] then Pass else Forbidden
              else Undecided)
    {
      if isPublic || domain.None? || domain.value == "" {
        return Pass;
      }
      if user.None? {
        return Unauthorized;
      }
      var key := CacheKey(user.value, domain.value);
      if key in cache {
        return if cache[key] then Pass else Forbidden;
      }
      checks := checks + [Check(user.value, domain.value)];
      return Undecided;
    }

    /** `canActivate` of `DynamicAppAccessGuard` up to its `await`: the domain is a parameter of
        the URL, by default `appName`, and the decisions are in the same cache. */
    method CanActivateByParameter(isPublic: bool, paramName: Option<string>, params: map<string, string>, user: Option<string>)
      returns (v: Verdict)
      modifies this
      ensures var name := if paramName.Some? then paramName.value else "appName";
        if isPublic || name !in params || params[name] == "" then v == Pass && St() == old(St())
        else if user.None? then v == Unauthorized && St() == old(St())
        else
          && St() == AskFor(old(St()), user.value, params[name])
          && v == (if CacheKey(user.value, params[name]) in cache
                   then if cache[CacheKey(user.value, params[name])] then Pass else Forbidden
                   else Undecided)
    {
      var name := if paramName.Some? then paramName.value else "appName";
      v := CanActivate(isPublic, if name in params then Some(params[name]) else None, user);
    }

    /** The rest of `canActivate` of both guards; `evicted` are the entries that make way for the new one. */
    method FinishCheck(i: nat, evicted: set<string>) returns (v: Verdict)
      requires i < |checks|
      modifies this
      ensures St() == DecideCheck(env, old(St()), i, evicted)
      ensures v == Pass || v == Forbidden
      ensures var Check(username, domain) := old(checks)[i];
        v == Pass <==> exists g :: g in env.ldapGroups(username) && LetsIn(env, accessMap, domain, g)
    {
      HasAccessMeans(env, accessMap, checks[i].username, checks[i].domain);
      var Check(username, domain) := checks[i];
      checks := Drop(checks, i);
      cache := cache - evicted;
      var ldapGroups := env.ldapGroups(username);
      if IsAdmin(env, username) {
        cache := cache[CacheKey(username, domain) := true];
        return Pass;
      }
      var hasAccess := if domain in accessMap then ldapGroups * accessMap[domain] != {} else false;
      cache := cache[CacheKey(username, domain) := hasAccess];
      v := if hasAccess then Pass else Forbidden;
    }

    /** `patchSingleFieldInConfig` for the access groups: a write after which nothing is read. */
    method PatchAccessGroups(name: string, groups: set<string>)
      modifies this
      ensures St() == Next(env, old(St()), Write(if name in old(docs) then old(docs)[name := old(docs)[name].(accessGroups := groups)] else old(docs)))
      ensures accessMap == old(accessMap)
      ensures name in docs ==> name in AccessOf(docs) && AccessOf(docs)[name] == groups
    {
      if name in docs {
        docs := docs[name := docs[name].(accessGroups := groups)];
      }
    }

    /** `updateAppAccessMap` when the configurations have been read. */
    method ReadConfigs()
      modifies this
      ensures St() == Next(env, old(St()), ReadStore)
    {
      refreshes := refreshes + [AccessOf(docs)];
    }

    /** The rest of `updateAppAccessMap`, with the listener that clears the cache. */
    method UpdateAppAccessMap(i: nat)
      requires i < |refreshes|
      modifies this
      ensures St() == AssignMap(old(St()), i)
    {
      accessMap := refreshes[i];
      refreshes := Drop(refreshes, i);
      cache := map[];
    }
  }
}
