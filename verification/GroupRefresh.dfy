/** The group cache refresh: batches of requests with retries, the flattening of the group
    tree, and the flag that keeps refreshes from running side by side. */
module GroupRefresh {
  import opened Types

  const MAXIMUM_RETRIES: nat := 3
  const BATCH_SIZE: nat := 20

  /** ---- what the retries amount to ---- */

  /** A request: a group and the attempt at which it is sent. */
  type Request = (Group, nat)

  /** A pattern of failures: the requests that fail. */
  type Failures = set<Request>

  predicate FailsFrom(fails: Failures, g: Group, attempt: nat) {
    forall a :: attempt <= a <= MAXIMUM_RETRIES ==> (g, a) in fails
  }

  function Failing(groups: seq<Group>, fails: Failures, attempt: nat): seq<Group> {
    if groups == [] then []
    else (if (groups[0], attempt) in fails then [groups[0]] else []) + Failing(groups[1..], fails, attempt)
  }

  /** The groups that fail at every attempt from `attempt` on, in their order. */
  function FailingToTheEnd(groups: seq<Group>, fails: Failures, attempt: nat): seq<Group> {
    if groups == [] then []
    else (if FailsFrom(fails, groups[0], attempt) then [groups[0]] else []) + FailingToTheEnd(groups[1..], fails, attempt)
  }

  lemma {:induction false} RetryFilters(groups: seq<Group>, fails: Failures, attempt: nat)
    requires attempt < MAXIMUM_RETRIES
    ensures FailingToTheEnd(Failing(groups, fails, attempt), fails, attempt + 1) == FailingToTheEnd(groups, fails, attempt)
  {
    if groups != [] {
      RetryFilters(groups[1..], fails, attempt);
      var rest := Failing(groups[1..], fails, attempt);
      assert FailsFrom(fails, groups[0], attempt) <==> (groups[0], attempt) in fails && FailsFrom(fails, groups[0], attempt + 1);
      if (groups[0], attempt) in fails {
        assert ([groups[0]] + rest)[1..] == rest;
      } else {
        assert [] + rest == rest;
      }
    }
  }

  lemma {:induction false} LastRound(groups: seq<Group>, fails: Failures)
    ensures FailingToTheEnd(groups, fails, MAXIMUM_RETRIES) == Failing(groups, fails, MAXIMUM_RETRIES)
  {
    if groups != [] {
      LastRound(groups[1..], fails);
    }
  }

  lemma {:induction false} FailingAppend(a: seq<Group>, b: seq<Group>, fails: Failures, attempt: nat)
    ensures Failing(a + b, fails, attempt) == Failing(a, fails, attempt) + Failing(b, fails, attempt)
  {
    if a == [] {
      assert a + b == b;
    } else {
      assert (a + b)[1..] == a[1..] + b;
      FailingAppend(a[1..], b, fails, attempt);
      var first, rest, others := if (a[0], attempt) in fails then [a[0]] else [], Failing(a[1..], fails, attempt), Failing(b, fails, attempt);
      assert first + (rest + others) == (first + rest) + others;
    }
  }

  lemma {:induction false} FailingMembers(groups: seq<Group>, fails: Failures, attempt: nat, g: Group)
    ensures g in Failing(groups, fails, attempt) <==> g in groups && (g, attempt) in fails
    ensures |Failing(groups, fails, attempt)| <= |groups|
  {
    if groups != [] {
      FailingMembers(groups[1..], fails, attempt, g);
    }
  }

  function Round(groups: seq<Group>, attempt: nat): seq<Request> {
    if groups == [] then [] else [(groups[0], attempt)] + Round(groups[1..], attempt)
  }

  /** All requests of one call, attempt by attempt. */
  function Requests(groups: seq<Group>, fails: Failures, attempt: nat): seq<Request>
    decreases MAXIMUM_RETRIES - attempt
  {
    Round(groups, attempt) +
    (if Failing(groups, fails, attempt) != [] && attempt < MAXIMUM_RETRIES
     then Requests(Failing(groups, fails, attempt), fails, attempt + 1) else [])
  }

  function Count<T(==)>(xs: seq<T>, x: T): nat {
    if xs == [] then 0 else (if xs[0] == x then 1 else 0) + Count(xs[1..], x)
  }

  lemma {:induction false} CountAppend<T>(a: seq<T>, b: seq<T>, x: T)
    ensures Count(a + b, x) == Count(a, x) + Count(b, x)
  {
    if a == [] {
      assert a + b == b;
    } else {
      assert (a + b)[1..] == a[1..] + b;
      CountAppend(a[1..], b, x);
    }
  }

  lemma {:induction false} RoundCount(groups: seq<Group>, attempt: nat, g: Group, a: nat)
    ensures Count(Round(groups, attempt), (g, a)) == if a == attempt then Count(groups, g) else 0
  {
    if groups != [] {
      RoundCount(groups[1..], attempt, g, a);
    }
  }

  lemma {:induction false} FailingCount(groups: seq<Group>, fails: Failures, attempt: nat, g: Group)
    ensures Count(Failing(groups, fails, attempt), g) == if (g, attempt) in fails then Count(groups, g) else 0
  {
    if groups != [] {
      FailingCount(groups[1..], fails, attempt, g);
      var rest := Failing(groups[1..], fails, attempt);
      CountAppend(if (groups[0], attempt) in fails then [groups[0]] else [], rest, g);
    }
  }

  predicate FailsUntil(fails: Failures, g: Group, attempt: nat, a: nat) {
    forall k :: attempt <= k < a ==> (g, k) in fails
  }

  lemma FailsUntilSplit(fails: Failures, g: Group, attempt: nat, a: nat)
    ensures attempt < a ==> (FailsUntil(fails, g, attempt, a) <==> (g, attempt) in fails && FailsUntil(fails, g, attempt + 1, a))
    ensures a <= attempt ==> FailsUntil(fails, g, attempt, a)
  {
  }

  lemma RequestsCount(groups: seq<Group>, fails: Failures, attempt: nat, r: Request)
    requires attempt <= MAXIMUM_RETRIES
    ensures var again := Failing(groups, fails, attempt);
      Count(Requests(groups, fails, attempt), r) == Count(Round(groups, attempt), r) +
      (if again != [] && attempt < MAXIMUM_RETRIES then Count(Requests(again, fails, attempt + 1), r) else 0)
  {
    var again := Failing(groups, fails, attempt);
    var later := if again != [] && attempt < MAXIMUM_RETRIES then Requests(again, fails, attempt + 1) else [];
    CountAppend(Round(groups, attempt), later, r);
  }

  /** A group is requested at an attempt exactly if it failed at all earlier ones, and once
      per attempt; so never more often than `maximumRetries` allows. */
  lemma {:induction false} EachGroupIsTriedOncePerAttempt(groups: seq<Group>, fails: Failures, attempt: nat, g: Group, a: nat)
    requires attempt <= MAXIMUM_RETRIES
    ensures Count(Requests(groups, fails, attempt), (g, a)) ==
      if attempt <= a <= MAXIMUM_RETRIES && FailsUntil(fails, g, attempt, a) then Count(groups, g) else 0
    decreases MAXIMUM_RETRIES - attempt
  {
    hide Failing, Round, Requests, FailsUntil;
    var again := Failing(groups, fails, attempt);
    RequestsCount(groups, fails, attempt, (g, a));
    RoundCount(groups, attempt, g, a);
    FailsUntilSplit(fails, g, attempt, a);
    FailingCount(groups, fails, attempt, g);
    if again != [] && attempt < MAXIMUM_RETRIES {
      EachGroupIsTriedOncePerAttempt(again, fails, attempt + 1, g, a);
    }
  }

  /** ---- what the cache holds afterwards ---- */

  datatype Cached = Cached(group: Group, members: seq<User>)

  type Cache = map<string, Cached>

  /** What Keycloak answers for a group id. */
  type Directory = string -> seq<User>

  /** The entry a successful request for `g` writes. */
  function EntryOf(members: Directory, g: Group): Cached {
    Cached(g, SanitizeMembers(members(g.id)))
  }

  /** The cache after the requests of one attempt have settled, `groups` being the order in which
      they answer. */
  function Refreshed(members: Directory, before: Cache, groups: seq<Group>, fails: Failures, attempt: nat): Cache
    decreases |groups|
  {
    if groups == [] then before
    else
      var next := if (groups[0], attempt) in fails then before else before[groups[0].path := EntryOf(members, groups[0])];
      Refreshed(members, next, groups[1..], fails, attempt)
  }

  /** The cache after all attempts; `rounds` are the orders of the answers, attempt by attempt. */
  function AfterRetries(members: Directory, before: Cache, rounds: seq<seq<Group>>, fails: Failures, attempt: nat): Cache
    decreases |rounds|
  {
    if rounds == [] then before
    else AfterRetries(members, Refreshed(members, before, rounds[0], fails, attempt), rounds[1..], fails, attempt + 1)
  }

  /** All requests of an attempt answer, in some order, and only the failed ones are sent again. */
  ghost predicate AreRounds(groups: seq<Group>, fails: Failures, attempt: nat, rounds: seq<seq<Group>>)
    decreases |rounds|
  {
    && rounds != [] && SameMembers(rounds[0], groups)
    && if Failing(groups, fails, attempt) != [] && attempt < MAXIMUM_RETRIES
       then AreRounds(Failing(groups, fails, attempt), fails, attempt + 1, rounds[1..])
       else |rounds| == 1
  }

  ghost predicate SameMembers(a: seq<Group>, b: seq<Group>) {
    forall g :: g in a <==> g in b
  }

  ghost predicate NoneAt(groups: seq<Group>, p: string) {
    forall g :: g in groups ==> g.path != p
  }

  /** No two different groups share a path. */
  ghost predicate DistinctPaths(groups: seq<Group>) {
    forall g, h :: g in groups && h in groups && g.path == h.path ==> g == h
  }

  ghost predicate SameAt(a: Cache, b: Cache, p: string) {
    (p in a <==> p in b) && (p in a ==> a[p] == b[p])
  }

  lemma {:induction false} RefreshedAppend(members: Directory, before: Cache, a: seq<Group>, b: seq<Group>, fails: Failures, attempt: nat)
    ensures Refreshed(members, before, a + b, fails, attempt) ==
      Refreshed(members, Refreshed(members, before, a, fails, attempt), b, fails, attempt)
    decreases |a|
  {
    if a == [] {
      assert a + b == b;
    } else {
      assert (a + b)[1..] == a[1..] + b;
      var next := if (a[0], attempt) in fails then before else before[a[0].path := EntryOf(members, a[0])];
      RefreshedAppend(members, next, a[1..], b, fails, attempt);
    }
  }

  lemma FailsFromSplit(fails: Failures, g: Group, attempt: nat)
    requires attempt <= MAXIMUM_RETRIES
    ensures FailsFrom(fails, g, attempt) <==>
      (g, attempt) in fails && (attempt < MAXIMUM_RETRIES ==> FailsFrom(fails, g, attempt + 1))
  {
  }

  /** The entry at `p` is that of a group of this path that did not fail to the end. */
  ghost predicate FreshAt(members: Directory, groups: seq<Group>, fails: Failures, attempt: nat, after: Cache, p: string) {
    exists h :: h in groups && h.path == p && !FailsFrom(fails, h, attempt) && p in after && after[p] == EntryOf(members, h)
  }

  /** Some group of this path succeeds at some attempt. */
  ghost predicate SomeSucceeds(groups: seq<Group>, fails: Failures, attempt: nat, p: string) {
    exists h :: h in groups && h.path == p && !FailsFrom(fails, h, attempt)
  }

  /** After one attempt the entry at `p` is one just written, if any was. */
  lemma {:induction false} EntryWritten(members: Directory, before: Cache, groups: seq<Group>, fails: Failures, attempt: nat, p: string)
    ensures var once := Refreshed(members, before, groups, fails, attempt);
      SameAt(once, before, p) ||
      exists h :: h in groups && h.path == p && (h, attempt) !in fails && p in once && once[p] == EntryOf(members, h)
    ensures (exists h :: h in groups && h.path == p && (h, attempt) !in fails) ==>
      var once := Refreshed(members, before, groups, fails, attempt);
      exists h :: h in groups && h.path == p && (h, attempt) !in fails && p in once && once[p] == EntryOf(members, h)
    decreases |groups|
  {
    if groups != [] {
      var next := if (groups[0], attempt) in fails then before else before[groups[0].path := EntryOf(members, groups[0])];
      EntryWritten(members, next, groups[1..], fails, attempt, p);
      assert forall h :: h in groups <==> h == groups[0] || h in groups[1..];
    }
  }

  /** For every list, paths shared or not, and every order of the answers: a path of which some
      group succeeds at some attempt ends with the entry of such a group, and every other path
      keeps the entry it had. */
  lemma {:induction false} PathAfterRetries(members: Directory, before: Cache, groups: seq<Group>, rounds: seq<seq<Group>>, fails: Failures, attempt: nat, p: string)
    requires attempt <= MAXIMUM_RETRIES && AreRounds(groups, fails, attempt, rounds)
    ensures var after := AfterRetries(members, before, rounds, fails, attempt);
      if SomeSucceeds(groups, fails, attempt, p) then FreshAt(members, groups, fails, attempt, after, p) else SameAt(after, before, p)
    decreases |rounds|
  {
    hide Refreshed, Failing, FailsFrom, EntryOf;
    var once, again := Refreshed(members, before, rounds[0], fails, attempt), Failing(groups, fails, attempt);
    EntryWritten(members, before, rounds[0], fails, attempt, p);
    forall h ensures h in again <==> h in groups && (h, attempt) in fails {
      FailingMembers(groups, fails, attempt, h);
    }
    forall h: Group ensures FailsFrom(fails, h, attempt) <==>
      (h, attempt) in fails && (attempt < MAXIMUM_RETRIES ==> FailsFrom(fails, h, attempt + 1))
    {
      FailsFromSplit(fails, h, attempt);
    }
    if again != [] && attempt < MAXIMUM_RETRIES {
      PathAfterRetries(members, once, again, rounds[1..], fails, attempt + 1, p);
    } else {
      assert AfterRetries(members, once, rounds[1..], fails, attempt + 1) == once;
    }
  }

  /** What becomes of the entry of one group. */
  ghost predicate EntryAfter(members: Directory, before: Cache, after: Cache, fails: Failures, attempt: nat, g: Group) {
    if FailsFrom(fails, g, attempt) then SameAt(after, before, g.path)
    else g.path in after && after[g.path] == EntryOf(members, g)
  }

  /** In particular, for distinct paths: a group that fails at every attempt keeps the entry it
      had; every other group ends with a fresh one, whichever attempt succeeded. */
  lemma CacheAfterRetries(members: Directory, before: Cache, groups: seq<Group>, rounds: seq<seq<Group>>, fails: Failures, attempt: nat, g: Group)
    requires attempt <= MAXIMUM_RETRIES && AreRounds(groups, fails, attempt, rounds) && DistinctPaths(groups) && g in groups
    ensures EntryAfter(members, before, AfterRetries(members, before, rounds, fails, attempt), fails, attempt, g)
  {
    hide FailsFrom, AreRounds, AfterRetries, EntryOf;
    PathAfterRetries(members, before, groups, rounds, fails, attempt, g.path);
  }

  /** No other path is touched. */
  lemma OtherPathAfterRetries(members: Directory, before: Cache, groups: seq<Group>, rounds: seq<seq<Group>>, fails: Failures, attempt: nat, p: string)
    requires attempt <= MAXIMUM_RETRIES && AreRounds(groups, fails, attempt, rounds) && NoneAt(groups, p)
    ensures SameAt(AfterRetries(members, before, rounds, fails, attempt), before, p)
  {
    PathAfterRetries(members, before, groups, rounds, fails, attempt, p);
  }

  /** One of the four requests for a group is answered. */
  ghost predicate IsAnswered(fails: Failures, g: Group) {
    (g, 0) !in fails || (g, 1) !in fails || (g, 2) !in fails || (g, 3) !in fails
  }

  /** The entry is for this group and holds the members of its id that are not blank. */
  ghost predicate IsEntryFor(entry: Cached, g: Group, answer: seq<User>) {
    entry.group == g && forall u :: u in entry.members <==> u in answer && !IsBlank(u.id) && !IsBlank(u.username)
  }

  /** A whole call told from its requests: of the groups of a path that answer at one of four
      attempts one decides the entry, by its id; without one the entry stays. */
  lemma FourAttemptsDecide(members: Directory, before: Cache, groups: seq<Group>, rounds: seq<seq<Group>>, fails: Failures, p: string)
    requires AreRounds(groups, fails, 0, rounds)
    ensures var after := AfterRetries(members, before, rounds, fails, 0);
      if exists g :: g in groups && g.path == p && IsAnswered(fails, g)
      then exists g :: g in groups && g.path == p && IsAnswered(fails, g) && p in after && IsEntryFor(after[p], g, members(g.id))
      else SameAt(after, before, p)
  {
    hide AreRounds, AfterRetries;
    PathAfterRetries(members, before, groups, rounds, fails, 0, p);
    assert forall g: Group :: IsAnswered(fails, g) <==> !FailsFrom(fails, g, 0);
  }

  /** At every attempt two successful requests for one path write the same. */
  ghost predicate OneEntryPerPath(members: Directory, groups: seq<Group>, fails: Failures, attempt: nat) {
    forall g, h :: g in groups && h in groups && g.path == h.path && !FailsFrom(fails, g, attempt) && !FailsFrom(fails, h, attempt) ==>
      EntryOf(members, g) == EntryOf(members, h)
  }

  /** Then the orders in which the answers come do not matter, whatever the cache held. */
  lemma OrderOfAnswersDoesNotMatter(members: Directory, before: Cache, groups: seq<Group>, rounds: seq<seq<Group>>, other: seq<seq<Group>>, fails: Failures, attempt: nat)
    requires attempt <= MAXIMUM_RETRIES && OneEntryPerPath(members, groups, fails, attempt)
    requires AreRounds(groups, fails, attempt, rounds) && AreRounds(groups, fails, attempt, other)
    ensures AfterRetries(members, before, rounds, fails, attempt) == AfterRetries(members, before, other, fails, attempt)
  {
    hide FailsFrom, AreRounds, AfterRetries, EntryOf;
    var a, b := AfterRetries(members, before, rounds, fails, attempt), AfterRetries(members, before, other, fails, attempt);
    forall p ensures SameAt(a, b, p) {
      PathAfterRetries(members, before, groups, rounds, fails, attempt, p);
      PathAfterRetries(members, before, groups, other, fails, attempt, p);
    }
    SameEverywhere(a, b);
  }

  /** Two different groups at one path that both answer at once: the last answer wins. */
  lemma LastAnswerWins(members: Directory, before: Cache, g: Group, h: Group)
    requires g.path == h.path && g != h
    ensures AreRounds([g, h], {}, 1, [[g, h]]) && AreRounds([g, h], {}, 1, [[h, g]])
    ensures AfterRetries(members, before, [[g, h]], {}, 1) != AfterRetries(members, before, [[h, g]], {}, 1)
  {
    OneThenTheOther(members, before, g, h);
    OneThenTheOther(members, before, h, g);
  }

  lemma {:induction false} NoneFails(groups: seq<Group>)
    ensures Failing(groups, {}, 1) == []
  {
    if groups != [] {
      NoneFails(groups[1..]);
    }
  }

  lemma OneThenTheOther(members: Directory, before: Cache, g: Group, h: Group)
    ensures AreRounds([g, h], {}, 1, [[g, h]]) && AreRounds([h, g], {}, 1, [[g, h]])
    ensures var after := AfterRetries(members, before, [[g, h]], {}, 1);
      h.path in after && after[h.path] == EntryOf(members, h)
  {
    assert [g, h] == [g] + [h] && [g, h][1..] == [h] && [h][1..] == [];
    assert [h, g] == [h] + [g] && [h, g][1..] == [g] && [g][1..] == [];
    assert [[g, h]][1..] == [];
    NoneFails([g, h]);
    NoneFails([h, g]);
    var mid := before[g.path := EntryOf(members, g)];
    assert Refreshed(members, before, [g, h], {}, 1) == Refreshed(members, mid, [h], {}, 1);
    assert Refreshed(members, mid, [h], {}, 1) == mid[h.path := EntryOf(members, h)];
  }

  lemma SameEverywhere(a: Cache, b: Cache)
    requires forall p :: SameAt(a, b, p)
    ensures a == b
  {
    forall p ensures p in a <==> p in b {
      assert SameAt(a, b, p);
    }
    forall p | p in a ensures a[p] == b[p] {
      assert SameAt(a, b, p);
    }
  }

  lemma {:induction false} RoundAppend(a: seq<Group>, b: seq<Group>, attempt: nat)
    ensures Round(a + b, attempt) == Round(a, attempt) + Round(b, attempt)
  {
    if a == [] {
      assert a + b == b;
    } else {
      assert (a + b)[1..] == a[1..] + b;
      RoundAppend(a[1..], b, attempt);
    }
  }

  lemma OneMore(groups: seq<Group>, fails: Failures, attempt: nat, j: nat)
    requires j < |groups|
    ensures Failing(groups[..j + 1], fails, attempt) ==
      Failing(groups[..j], fails, attempt) + (if (groups[j], attempt) in fails then [groups[j]] else [])
    ensures Round(groups[..j + 1], attempt) == Round(groups[..j], attempt) + [(groups[j], attempt)]
  {
    var one := [groups[j]];
    assert groups[..j + 1] == groups[..j] + one && one[1..] == [];
    FailingAppend(groups[..j], one, fails, attempt);
    RoundAppend(groups[..j], one, attempt);
  }

  lemma OneMoreAnswer(members: Directory, before: Cache, answered: seq<Group>, g: Group, fails: Failures, attempt: nat)
    ensures var front := Refreshed(members, before, answered, fails, attempt);
      Refreshed(members, before, answered + [g], fails, attempt) ==
      if (g, attempt) in fails then front else front[g.path := EntryOf(members, g)]
  {
    assert [g][1..] == [];
    RefreshedAppend(members, before, answered, [g], fails, attempt);
  }

  lemma NothingToRetry(groups: seq<Group>, fails: Failures, attempt: nat)
    requires attempt <= MAXIMUM_RETRIES
    requires Failing(groups, fails, attempt) == [] || attempt == MAXIMUM_RETRIES
    ensures FailingToTheEnd(groups, fails, attempt) == Failing(groups, fails, attempt)
  {
    if attempt == MAXIMUM_RETRIES {
      LastRound(groups, fails);
    } else {
      RetryFilters(groups, fails, attempt);
    }
  }

  lemma RetryStep(groups: seq<Group>, fails: Failures, attempt: nat, failed: seq<Group>, r0: seq<Request>, r1: seq<Request>, r2: seq<Request>)
    requires attempt < MAXIMUM_RETRIES && Failing(groups, fails, attempt) != []
    requires r1 == r0 + Round(groups, attempt)
    requires failed == FailingToTheEnd(Failing(groups, fails, attempt), fails, attempt + 1)
    requires r2 == r1 + Requests(Failing(groups, fails, attempt), fails, attempt + 1)
    ensures failed == FailingToTheEnd(groups, fails, attempt)
    ensures r2 == r0 + Requests(groups, fails, attempt)
  {
    hide Failing, Round, FailingToTheEnd;
    RetryFilters(groups, fails, attempt);
    assert r2 == r0 + (Round(groups, attempt) + Requests(Failing(groups, fails, attempt), fails, attempt + 1));
  }

  lemma RetryRounds(members: Directory, before: Cache, groups: seq<Group>, answered: seq<Group>, later: seq<seq<Group>>, fails: Failures, attempt: nat)
    requires attempt < MAXIMUM_RETRIES && Failing(groups, fails, attempt) != [] && SameMembers(answered, groups)
    requires AreRounds(Failing(groups, fails, attempt), fails, attempt + 1, later)
    ensures AreRounds(groups, fails, attempt, [answered] + later)
    ensures AfterRetries(members, before, [answered] + later, fails, attempt) ==
      AfterRetries(members, Refreshed(members, before, answered, fails, attempt), later, fails, attempt + 1)
  {
    assert ([answered] + later)[1..] == later;
  }

  lemma LastStep(members: Directory, before: Cache, groups: seq<Group>, answered: seq<Group>, fails: Failures, attempt: nat, r0: seq<Request>)
    requires attempt <= MAXIMUM_RETRIES && (Failing(groups, fails, attempt) == [] || attempt == MAXIMUM_RETRIES)
    requires SameMembers(answered, groups)
    ensures FailingToTheEnd(groups, fails, attempt) == Failing(groups, fails, attempt)
    ensures AreRounds(groups, fails, attempt, [answered])
    ensures AfterRetries(members, before, [answered], fails, attempt) == Refreshed(members, before, answered, fails, attempt)
    ensures r0 + Requests(groups, fails, attempt) == r0 + Round(groups, attempt)
  {
    hide Failing, Refreshed, Round, FailingToTheEnd;
    NothingToRetry(groups, fails, attempt);
    assert [answered][1..] == [];
  }

  /** What the batches of an attempt have done so far, their answers having come in this order. */
  ghost predicate SoFar(members: Directory, before: Cache, done: seq<Group>, answered: seq<Group>, fails: Failures, attempt: nat,
                        failed: seq<Group>, cache: Cache, r0: seq<Request>, r: seq<Request>) {
    && SameMembers(answered, done) && failed == Failing(done, fails, attempt)
    && cache == Refreshed(members, before, answered, fails, attempt)
    && r == r0 + Round(done, attempt)
  }

  /** The effects of one more batch add up with those of the batches before it. */
  lemma OneMoreBatch(members: Directory, before: Cache, done: seq<Group>, answered: seq<Group>, batch: seq<Group>, order: seq<Group>,
                     fails: Failures, attempt: nat, failed: seq<Group>, now: seq<Group>, c1: Cache, c2: Cache,
                     r0: seq<Request>, r1: seq<Request>, r2: seq<Request>)
    requires SoFar(members, before, done, answered, fails, attempt, failed, c1, r0, r1)
    requires SoFar(members, c1, batch, order, fails, attempt, now, c2, r1, r2)
    ensures SoFar(members, before, done + batch, answered + order, fails, attempt, failed + now, c2, r0, r2)
  {
    FailingAppend(done, batch, fails, attempt);
    RoundAppend(done, batch, attempt);
    RefreshedAppend(members, before, answered, order, fails, attempt);
  }

  function Indices(n: nat): (r: set<nat>)
    ensures forall j :: j in r <==> 0 <= j < n
  {
    if n == 0 then {} else Indices(n - 1) + {n - 1}
  }

  class GroupsService {
    const members: Directory
    var cache: Cache
    ghost var requests: seq<Request>

    constructor (members: Directory)
      ensures this.members == members && cache == map[] && requests == []
    {
      this.members := members;
      cache, requests := map[], [];
    }

    /** Without a list of new members they are fetched, and the fetch may fail. */
    method UpdateGroupWithMembersInCache(group: Group, updatedMembers: Option<seq<User>>, fetchFails: bool) returns (ok: bool)
      modifies this`cache
      ensures ok == (updatedMembers.Some? || !fetchFails)
      ensures cache == if ok
        then old(cache)[group.path := Cached(group, SanitizeMembers(if updatedMembers.Some? then updatedMembers.value else members(group.id)))]
        else old(cache)
    {
      var newMembers := [];
      if updatedMembers.Some? {
        newMembers := updatedMembers.value;
      } else {
        if fetchFails {
          return false;
        }
        newMembers := members(group.id);
      }
      var sanitized := if |newMembers| > 0 then SanitizeMembers(newMembers) else [];
      cache := cache[group.path := Cached(group, sanitized)];
      ok := true;
    }

    /** The requests of a batch are sent in its order. */
    method SendBatch(batch: seq<Group>, attempt: nat, fails: Failures)
      modifies this`requests
      ensures requests == old(requests) + Round(batch, attempt)
    {
      for j := 0 to |batch|
        invariant requests == old(requests) + Round(batch[..j], attempt)
      {
        OneMore(batch, fails, attempt, j);
        requests := requests + [(batch[j], attempt)];
      }
      assert batch[..|batch|] == batch;
    }

    /** The requests answer in any order; `settled` tells which have succeeded. */
    method Settle(batch: seq<Group>, attempt: nat, fails: Failures) returns (settled: map<nat, bool>, ghost answered: seq<Group>)
      modifies this`cache
      ensures forall j :: 0 <= j < |batch| ==> j in settled && settled[j] == ((batch[j], attempt) !in fails)
      ensures SameMembers(answered, batch) && cache == Refreshed(members, old(cache), answered, fails, attempt)
    {
      answered, settled := [], map[];
      var pending := Indices(|batch|);
      while pending != {}
        invariant pending <= Indices(|batch|) && settled.Keys == Indices(|batch|) - pending
        invariant forall j :: j in settled ==> settled[j] == ((batch[j], attempt) !in fails)
        invariant forall g :: g in answered <==> exists j :: j in settled && batch[j] == g
        invariant cache == Refreshed(members, old(cache), answered, fails, attempt)
        decreases pending
      {
        var j :| j in pending;
        pending := pending - {j};
        OneMoreAnswer(members, old(cache), answered, batch[j], fails, attempt);
        var ok := UpdateGroupWithMembersInCache(batch[j], None, (batch[j], attempt) in fails);
        answered := answered + [batch[j]];
        settled := settled[j := ok];
      }
      assert forall g :: g in batch <==> exists j :: j in Indices(|batch|) && batch[j] == g;
    }

    /** One batch: all its requests are sent, and the failed ones are collected in its order. */
    method RunBatch(batch: seq<Group>, attempt: nat, fails: Failures) returns (failed: seq<Group>, ghost answered: seq<Group>)
      modifies this
      ensures SoFar(members, old(cache), batch, answered, fails, attempt, failed, cache, old(requests), requests)
    {
      SendBatch(batch, attempt, fails);
      var settled;
      settled, answered := Settle(batch, attempt, fails);
      failed := [];
      for j := 0 to |batch|
        invariant failed == Failing(batch[..j], fails, attempt)
        invariant cache == Refreshed(members, old(cache), answered, fails, attempt)
        invariant requests == old(requests) + Round(batch, attempt)
      {
        OneMore(batch, fails, attempt, j);
        if !settled[j] {
          failed := failed + [batch[j]];
        }
      }
      assert batch[..|batch|] == batch;
    }

    /** The batches of one attempt, one after another. */
    method RunBatches(groups: seq<Group>, attempt: nat, fails: Failures) returns (failedGroups: seq<Group>, ghost answered: seq<Group>)
      modifies this
      ensures SoFar(members, old(cache), groups, answered, fails, attempt, failedGroups, cache, old(requests), requests)
    {
      failedGroups, answered := [], [];
      var i := 0;
      while i < |groups|
        invariant i <= |groups|
        invariant SoFar(members, old(cache), groups[..i], answered, fails, attempt, failedGroups, cache, old(requests), requests)
      {
        var end := if i + BATCH_SIZE <= |groups| then i + BATCH_SIZE else |groups|;
        var batch := groups[i..end];
        ghost var c, r := cache, requests;
        ghost var order;
        var failed;
        failed, order := RunBatch(batch, attempt, fails);
        OneMoreBatch(members, old(cache), groups[..i], answered, batch, order, fails, attempt, failedGroups, failed, c, cache, old(requests), r, requests);
        assert groups[..end] == groups[..i] + batch;
        failedGroups, answered := failedGroups + failed, answered + order;
        i := end;
      }
      assert groups[..|groups|] == groups;
    }

    /** The batched retry returns exactly the groups that fail at all attempts, in order. */
    method TryUpdateGroupsWithMembersInCache(groups: seq<Group>, attempt: nat, fails: Failures)
      returns (failedGroups: seq<Group>, ghost rounds: seq<seq<Group>>)
      requires attempt <= MAXIMUM_RETRIES
      modifies this
      ensures failedGroups == FailingToTheEnd(groups, fails, attempt)
      ensures AreRounds(groups, fails, attempt, rounds)
      ensures cache == AfterRetries(members, old(cache), rounds, fails, attempt)
      ensures requests == old(requests) + Requests(groups, fails, attempt)
      decreases MAXIMUM_RETRIES - attempt
    {
      ghost var answered;
      failedGroups, answered := RunBatches(groups, attempt, fails);
      if |failedGroups| > 0 && attempt < MAXIMUM_RETRIES {
        ghost var sent := requests;
        failedGroups, rounds := TryUpdateGroupsWithMembersInCache(failedGroups, attempt + 1, fails);
        RetryStep(groups, fails, attempt, failedGroups, old(requests), sent, requests);
        RetryRounds(members, old(cache), groups, answered, rounds, fails, attempt);
        rounds := [answered] + rounds;
      } else {
        LastStep(members, old(cache), groups, answered, fails, attempt, old(requests));
        rounds := [answered];
      }
    }
  }

  /** ---- flattening ---- */

  datatype GroupTree = GroupTree(group: Group, subGroups: seq<GroupTree>)

  /** `flattenGroups`: every group before its subgroups. */
  function Flatten(trees: seq<GroupTree>): seq<Group>
    decreases trees
  {
    if trees == [] then []
    else [trees[0].group] + Flatten(trees[0].subGroups) + Flatten(trees[1..])
  }

  /** A group at the end of a path of child indices. */
  ghost predicate IsNode(trees: seq<GroupTree>, path: seq<nat>, g: Group)
    decreases |path|
  {
    path != [] && path[0] < |trees| &&
    if |path| == 1 then trees[path[0]].group == g else IsNode(trees[path[0]].subGroups, path[1..], g)
  }

  /** The flat list holds exactly the groups of the tree, at every depth. */
  lemma {:induction false} FlattenKeepsEveryGroup(trees: seq<GroupTree>, g: Group)
    ensures g in Flatten(trees) <==> exists path :: IsNode(trees, path, g)
    decreases trees
  {
    if g in Flatten(trees) {
      var path := PathTo(trees, g);
      assert IsNode(trees, path, g);
      assert exists p :: IsNode(trees, p, g);
    }
    forall path | IsNode(trees, path, g) ensures g in Flatten(trees) {
      NodeIsListed(trees, path, g);
    }
  }

  lemma {:induction false} PathTo(trees: seq<GroupTree>, g: Group) returns (path: seq<nat>)
    requires g in Flatten(trees)
    ensures IsNode(trees, path, g)
    decreases trees
  {
    if g == trees[0].group {
      path := [0];
    } else if g in Flatten(trees[0].subGroups) {
      var below := PathTo(trees[0].subGroups, g);
      path := [0] + below;
      assert path[1..] == below;
    } else {
      var beside := PathTo(trees[1..], g);
      path := [beside[0] + 1] + beside[1..];
      assert path[1..] == beside[1..];
    }
  }

  lemma {:induction false} NodeIsListed(trees: seq<GroupTree>, path: seq<nat>, g: Group)
    requires IsNode(trees, path, g)
    ensures g in Flatten(trees)
    decreases trees
  {
    if path[0] > 0 {
      var beside := [path[0] - 1] + path[1..];
      assert beside[1..] == path[1..];
      NodeIsListed(trees[1..], beside, g);
    } else if |path| > 1 {
      NodeIsListed(trees[0].subGroups, path[1..], g);
    }
  }

  class FlatGroups {
    var flatGroups: seq<Group>

    constructor ()
      ensures flatGroups == []
    {
      flatGroups := [];
    }

    method TraverseSubGroups(tree: GroupTree)
      modifies this
      ensures flatGroups == old(flatGroups) + Flatten([tree])
      decreases tree, 1
    {
      flatGroups := flatGroups + [tree.group];
      TraverseAll(tree.subGroups);
      assert [tree][1..] == [];
      assert Flatten([tree]) == [tree.group] + Flatten(tree.subGroups) + Flatten([]);
    }

    method TraverseAll(trees: seq<GroupTree>)
      modifies this
      ensures flatGroups == old(flatGroups) + Flatten(trees)
      decreases trees, 0
    {
      for i := 0 to |trees|
        invariant flatGroups == old(flatGroups) + Flatten(trees[..i])
      {
        assert trees[..i + 1] == trees[..i] + [trees[i]];
        FlattenAppend(trees[..i], [trees[i]]);
        TraverseSubGroups(trees[i]);
      }
      assert trees[..|trees|] == trees;
    }
  }

  lemma {:induction false} FlattenAppend(a: seq<GroupTree>, b: seq<GroupTree>)
    ensures Flatten(a + b) == Flatten(a) + Flatten(b)
    decreases |a|
  {
    if a == [] {
      assert a + b == b;
    } else {
      assert (a + b)[1..] == a[1..] + b;
      FlattenAppend(a[1..], b);
    }
  }
}
